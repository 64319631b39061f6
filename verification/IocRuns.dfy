/** Runs of the IOC writer: log growth, polls, commits, crashes, cursor resets, campaigns. */
module IocRuns {
  import opened Text
  import opened IocStores
  import opened IocWriters

  /** The logs, the committed tables and the open transaction. `done` counts, for each file,
      the lines of the longest prefix committed so far, and `times` holds when lines were
      processed; `workDone` and `workTimes` likewise for the transaction. `torn` means that a
      statement failed half-way. */
  datatype World = World(files: map<string, seq<Line>>, db: Db, work: Db, torn: bool,
                         done: map<string, nat>, workDone: map<string, nat>, times: set<real>, workTimes: set<real>)

  datatype Step =
    | Append(path: string, lines: seq<Line>)
    | Read(path: string, now: real)
    | Tear(junk: Db)
    | Commit
    | Crash
    | ResetCursor(path: string)
    | Replace(found: seq<Campaign>)

  const START := World(map[], EMPTY, EMPTY, false, map[], map[], {}, {})

  function FileOf(files: map<string, seq<Line>>, path: string): seq<Line> {
    if path in files then files[path] else []
  }

  function Upto(done: map<string, nat>, path: string): nat {
    if path in done then done[path] else 0
  }

  function RolledBack(w: World): World {
    w.(work := w.db, workDone := w.done, workTimes := w.times, torn := false)
  }

  function Apply(w: World, step: Step): World {
    match step
    case Append(path, lines) => w.(files := w.files[path := FileOf(w.files, path) + lines])
    case Tear(junk) => w.(work := junk, torn := true)
    case Crash => RolledBack(w)
    case Read(path, now) =>
      if w.torn then w
      else
        var lines := FileOf(w.files, path);
        w.(work := ProcessFile(w.work, path, lines, now), workDone := w.workDone[path := |lines|],
           workTimes := if Size(lines) <= Cursor(w.work, path) then w.workTimes else w.workTimes + {now})
    case Commit => if w.torn then w else w.(db := w.work, done := w.workDone, times := w.workTimes)
    case ResetCursor(path) => if w.torn then w else w.(work := w.work.(cursors := w.work.cursors[path := 0]))
    case Replace(found) =>
      if w.torn then w
      else if DistinctIds(found) then w.(work := Replaced(w.work, found))
      else RolledBack(w)
  }

  function Run(steps: seq<Step>): World {
    if steps == [] then START else Apply(Run(steps[..|steps| - 1]), steps[|steps| - 1])
  }

  // --------------------------------------------------------------- the invariant

  function Prefix(lines: seq<Line>, n: nat): seq<Line> {
    if n <= |lines| then lines[..n] else lines
  }

  /** The first `done` lines of every file. */
  function Prefixes(files: map<string, seq<Line>>, done: map<string, nat>): map<string, seq<Line>> {
    map path | path in done :: Prefix(FileOf(files, path), done[path])
  }

  function Said(logs: map<string, seq<Line>>): set<Sighting> {
    set path, o | path in logs && o in ClaimsIn(logs[path]) :: o
  }

  /** Everything said by the first `done` lines of every file. */
  function Seen(files: map<string, seq<Line>>, done: map<string, nat>): set<Sighting> {
    Said(Prefixes(files, done))
  }

  predicate Within(files: map<string, seq<Line>>, done: map<string, nat>) {
    forall path :: path in done ==> done[path] <= |FileOf(files, path)|
  }

  /** A cursor stands at the end of some line among those read. */
  ghost predicate AtLineEnd(lines: seq<Line>, cursor: nat, upto: nat) {
    exists k :: 0 <= k <= upto && k <= |lines| && Size(lines[..k]) == cursor
  }

  /** Each link of an indicator to a known campaign is justified by some shared address. */
  ghost predicate Justified(db: Db) {
    forall k, id :: (k, id) in db.links ==>
      id in db.campaigns && exists ip :: ip in db.campaigns[id] && (k, ip) in db.ips
  }

  ghost predicate Consistent(files: map<string, seq<Line>>, db: Db, done: map<string, nat>, times: set<real>) {
    && Within(files, done)
    && Recounts(db, Seen(files, done), times)
    && (forall path :: path in db.cursors ==> AtLineEnd(FileOf(files, path), db.cursors[path], Upto(done, path)))
    && Justified(db)
  }

  predicate NoShorter(done: map<string, nat>, later: map<string, nat>) {
    forall path :: path in done ==> path in later && done[path] <= later[path]
  }

  ghost predicate Inv(w: World) {
    && Consistent(w.files, w.db, w.done, w.times) && Within(w.files, w.workDone) && NoShorter(w.done, w.workDone)
    && (!w.torn ==> Consistent(w.files, w.work, w.workDone, w.workTimes))
  }

  // ------------------------------------------------------------------- the proofs

  lemma {:induction false} SizeOfPrefix(lines: seq<Line>, k: nat)
    requires k <= |lines|
    ensures LinesFrom(lines, Size(lines[..k])) == lines[k..]
    ensures Size(lines[..k]) <= Size(lines)
    ensures k < |lines| ==> Size(lines[..k]) < Size(lines)
  {
    if k > 0 {
      assert lines[..k][1..] == lines[1..][..k - 1];
      SizeOfPrefix(lines[1..], k - 1);
    }
  }

  lemma SaidMore(logs: map<string, seq<Line>>, path: string, lines: seq<Line>, more: set<Sighting>)
    requires ClaimsIn(lines) == (if path in logs then ClaimsIn(logs[path]) else {}) + more
    ensures Said(logs[path := lines]) == Said(logs) + more
  {
    hide ClaimsIn;
    var next := logs[path := lines];
    forall o | o in Said(logs) + more
      ensures o in Said(next)
    {
      if o in more {
        assert path in next && o in ClaimsIn(next[path]);
      } else {
        var q :| q in logs && o in ClaimsIn(logs[q]);
        assert q in next && o in ClaimsIn(next[q]);
      }
    }
  }

  lemma SeenAfterRead(files: map<string, seq<Line>>, done: map<string, nat>, path: string, k: nat)
    requires Within(files, done) && k <= Upto(done, path)
    ensures var lines := FileOf(files, path);
      && k <= |lines| && Within(files, done[path := |lines|])
      && Seen(files, done[path := |lines|]) == Seen(files, done) + ClaimsIn(lines[k..])
  {
    hide ClaimsIn, Said;
    var lines, d := FileOf(files, path), Upto(done, path);
    var logs, next := Prefixes(files, done), done[path := |lines|];
    assert lines[..|lines|] == lines;
    SplitClaims(lines, k);
    SplitClaims(lines, d);
    SplitClaims(lines[..d], k);
    assert lines[..d][..k] == lines[..k];
    ClaimsInNothing();
    assert d == 0 ==> lines[..d] == [];
    assert Prefixes(files, next) == logs[path := lines];
    SaidMore(logs, path, lines, ClaimsIn(lines[k..]));
  }

  lemma SplitClaims(lines: seq<Line>, k: nat)
    requires k <= |lines|
    ensures ClaimsIn(lines) == ClaimsIn(lines[..k]) + ClaimsIn(lines[k..])
  {
    ClaimsInAppend(lines[..k], lines[k..]);
    assert lines == lines[..k] + lines[k..];
  }

  lemma SeenAfterAppend(files: map<string, seq<Line>>, done: map<string, nat>, path: string, more: seq<Line>)
    requires Within(files, done)
    ensures var files' := files[path := FileOf(files, path) + more];
      Within(files', done) && Seen(files', done) == Seen(files, done)
  {
    var files' := files[path := FileOf(files, path) + more];
    forall q | q in done
      ensures Prefix(FileOf(files', q), done[q]) == Prefix(FileOf(files, q), done[q])
    {
      assert (FileOf(files, q) + more)[..done[q]] == FileOf(files, q)[..done[q]];
    }
    assert Prefixes(files', done) == Prefixes(files, done);
  }

  lemma AppendKeepsConsistent(files: map<string, seq<Line>>, db: Db, done: map<string, nat>, times: set<real>,
                              path: string, more: seq<Line>)
    requires Consistent(files, db, done, times)
    ensures Consistent(files[path := FileOf(files, path) + more], db, done, times)
  {
    hide Recounts, Seen;
    var files' := files[path := FileOf(files, path) + more];
    SeenAfterAppend(files, done, path, more);
    forall q | q in db.cursors
      ensures AtLineEnd(FileOf(files', q), db.cursors[q], Upto(done, q))
    {
      var k :| 0 <= k <= Upto(done, q) && k <= |FileOf(files, q)| && Size(FileOf(files, q)[..k]) == db.cursors[q];
      assert FileOf(files', q)[..k] == FileOf(files, q)[..k];
    }
  }

  lemma {:induction false} ProcessingFrame(db: Db, lines: seq<Line>, now: real)
    ensures var after := ProcessLines(db, lines, now);
      after.links == db.links && after.campaigns == db.campaigns && after.cursors == db.cursors && db.ips <= after.ips
  {
    if lines != [] {
      hide Upsert;
      var before, last := ProcessLines(db, lines[..|lines| - 1], now), lines[|lines| - 1];
      ProcessingFrame(db, lines[..|lines| - 1], now);
      if last.event.Some? {
        var e := last.event.value;
        UpsertFrame(before, IpIoc(e, now));
        IndicatorsFrame(Upsert(before, IpIoc(e, now)), e, now, e.indicators);
      }
    }
  }

  lemma UpsertFrame(db: Db, ioc: Ioc)
    requires ioc.campaigns == []
    ensures var after := Upsert(db, ioc);
      after.links == db.links && after.campaigns == db.campaigns && after.cursors == db.cursors && db.ips <= after.ips
  {
  }

  lemma {:induction false} IndicatorsFrame(db: Db, e: Event, now: real, xs: seq<Indicator>)
    ensures var after := UpsertIndicators(db, e, now, xs);
      after.links == db.links && after.campaigns == db.campaigns && after.cursors == db.cursors && db.ips <= after.ips
  {
    if xs != [] {
      hide Upsert;
      IndicatorsFrame(db, e, now, xs[..|xs| - 1]);
      UpsertFrame(UpsertIndicators(db, e, now, xs[..|xs| - 1]), IndicatorIoc(e, now, xs[|xs| - 1]));
    }
  }

  lemma ReadKeepsConsistent(files: map<string, seq<Line>>, db: Db, done: map<string, nat>, times: set<real>,
                            path: string, now: real)
    requires Consistent(files, db, done, times)
    ensures var lines := FileOf(files, path);
      Consistent(files, ProcessFile(db, path, lines, now), done[path := |lines|],
                 if Size(lines) <= Cursor(db, path) then times else times + {now})
  {
    hide Recounts, Seen, ClaimsIn, ProcessLines, AtLineEnd;
    var lines, done' := FileOf(files, path), done[path := |FileOf(files, path)|];
    var k := CursorLine(files, db, done, times, path);
    SizeOfPrefix(lines, k);
    SeenAfterRead(files, done, path, k);
    if Size(lines) <= Cursor(db, path) {
      ClaimsInNothing();
      assert lines[k..] == [];
      assert Seen(files, done') == Seen(files, done) + {} == Seen(files, done);
    } else {
      RecountsLater(db, Seen(files, done), times, {now});
      LinesRecount(db, Seen(files, done), times + {now}, lines[k..], now);
      ProcessingFrame(db, lines[k..], now);
      var read := ProcessLines(db, lines[k..], now);
      RestIsInvisible(read, read.(cursors := db.cursors[path := Size(lines)]), Seen(files, done'), times + {now});
    }
    LastLineEnd(lines);
    forall q | q in db.cursors
      ensures AtLineEnd(FileOf(files, q), db.cursors[q], Upto(done', q))
    {
      LineEndStays(FileOf(files, q), db.cursors[q], Upto(done, q), Upto(done', q));
    }
  }

  lemma CursorLine(files: map<string, seq<Line>>, db: Db, done: map<string, nat>, times: set<real>, path: string)
    returns (k: nat)
    requires Consistent(files, db, done, times)
    ensures k <= Upto(done, path) && k <= |FileOf(files, path)| && Size(FileOf(files, path)[..k]) == Cursor(db, path)
  {
    var lines := FileOf(files, path);
    assert Size(lines[..0]) == 0;
    k :| 0 <= k <= Upto(done, path) && k <= |lines| && Size(lines[..k]) == Cursor(db, path);
  }

  lemma LineEndStays(lines: seq<Line>, cursor: nat, upto: nat, more: nat)
    requires upto <= more
    ensures AtLineEnd(lines, cursor, upto) ==> AtLineEnd(lines, cursor, more)
  {
  }

  lemma LastLineEnd(lines: seq<Line>)
    ensures AtLineEnd(lines, Size(lines), |lines|)
  {
    assert lines[..|lines|] == lines;
  }

  lemma ClaimsInNothing()
    ensures ClaimsIn([]) == {}
  {
  }

  /** Only the rows and the addresses matter. */
  lemma RestIsInvisible(db: Db, next: Db, said: set<Sighting>, times: set<real>)
    requires Recounts(db, said, times) && next.iocs == db.iocs && next.ips == db.ips
    ensures Recounts(next, said, times)
  {
    hide Merges, Realises;
    var seen :| Summarises(db, seen) && Realises(seen, said, times);
    assert Summarises(next, seen);
  }

  lemma ReplaceKeepsConsistent(files: map<string, seq<Line>>, db: Db, done: map<string, nat>, times: set<real>,
                               found: seq<Campaign>)
    requires Consistent(files, db, done, times) && DistinctIds(found)
    ensures Consistent(files, Replaced(db, found), done, times)
    ensures LinkedIffSharing(Replaced(db, found))
  {
    hide Recounts, Seen;
    var next := Replaced(db, found);
    RestIsInvisible(db, next, Seen(files, done), times);
    CampaignKeys(found);
    forall k, id
      ensures (k, id) in next.links <==>
        id in next.campaigns && exists ip :: ip in next.campaigns[id] && (k, ip) in next.ips
    {
      if id in next.campaigns && exists ip :: ip in next.campaigns[id] && (k, ip) in next.ips {
        var ip :| ip in next.campaigns[id] && (k, ip) in next.ips;
        var j :| 0 <= j < |found| && found[j].id == id;
        assert found[j] in found && (k, ip).1 in found[j].ips;
      }
      if (k, id) in next.links {
        var p, c :| p in db.ips && c in found && p.1 in c.ips && (p.0, c.id) == (k, id);
        var j :| 0 <= j < |found| && found[j] == c;
        assert p == (k, p.1);
      }
    }
  }

  /** An indicator is linked to a campaign exactly when they share an address. */
  ghost predicate LinkedIffSharing(db: Db) {
    forall k, id :: (k, id) in db.links <==>
      id in db.campaigns && exists ip :: ip in db.campaigns[id] && (k, ip) in db.ips
  }

  lemma ResetKeepsConsistent(files: map<string, seq<Line>>, db: Db, done: map<string, nat>, times: set<real>,
                             path: string)
    requires Consistent(files, db, done, times)
    ensures Consistent(files, db.(cursors := db.cursors[path := 0]), done, times)
  {
    hide Recounts, Seen;
    RestIsInvisible(db, db.(cursors := db.cursors[path := 0]), Seen(files, done), times);
    assert Size(FileOf(files, path)[..0]) == 0;
  }

  lemma StepKeepsInv(w: World, step: Step)
    requires Inv(w)
    ensures Inv(Apply(w, step))
  {
    hide Consistent;
    match step
    case Append(path, lines) =>
      AppendKeepsConsistent(w.files, w.db, w.done, w.times, path, lines);
      if !w.torn { AppendKeepsConsistent(w.files, w.work, w.workDone, w.workTimes, path, lines); }
    case Read(path, now) =>
      if !w.torn { ReadKeepsConsistent(w.files, w.work, w.workDone, w.workTimes, path, now); }
    case ResetCursor(path) =>
      if !w.torn { ResetKeepsConsistent(w.files, w.work, w.workDone, w.workTimes, path); }
    case Replace(found) =>
      ConsistentIsWithin(w);
      if !w.torn && DistinctIds(found) { ReplaceKeepsConsistent(w.files, w.work, w.workDone, w.workTimes, found); }
    case Crash => ConsistentIsWithin(w);
    case _ =>
  }

  lemma ConsistentIsWithin(w: World)
    requires Inv(w)
    ensures Within(w.files, w.done)
  {
  }

  /** On every run the committed tables recount exactly the committed log prefixes, and
      every link is justified. */
  lemma {:induction false} RunsSummariseTheLog(steps: seq<Step>)
    ensures Inv(Run(steps))
  {
    if steps == [] {
      NothingSaid();
    } else {
      hide Inv, Apply;
      RunsSummariseTheLog(steps[..|steps| - 1]);
      StepKeepsInv(Run(steps[..|steps| - 1]), steps[|steps| - 1]);
    }
  }

  lemma NothingSaid()
    ensures Inv(START)
  {
    assert Summarises(EMPTY, {}) && Realises({}, {}, {});
    assert Seen(map[], map[]) == {};
  }

  /** Where all log lines so far carry their time, the committed tables are the merge of
      what the committed prefixes say, with earliest and latest stamps. */
  lemma StampedRunsSummarise(steps: seq<Step>)
    requires forall path :: path in Run(steps).files ==> Stamped(Run(steps).files[path])
    ensures Summarises(Run(steps).db, Seen(Run(steps).files, Run(steps).done))
  {
    hide Run, Summarises, Recounts, Claims;
    RunsSummariseTheLog(steps);
    var files, done := Run(steps).files, Run(steps).done;
    forall q | q in Seen(files, done)
      ensures q.first.Some?
    {
      var path :| path in done && q in ClaimsIn(Prefix(FileOf(files, path), done[path]));
      ClaimIsStamped(Prefix(FileOf(files, path), done[path]), q);
    }
    StampedIsSummary(Run(steps).db, Seen(files, done), Run(steps).times);
  }

  predicate Stamped(lines: seq<Line>) {
    forall i :: 0 <= i < |lines| && lines[i].event.Some? ==> lines[i].event.value.stamp.Some?
  }

  lemma ClaimIsStamped(lines: seq<Line>, q: Sighting)
    requires Stamped(lines) && q in ClaimsIn(lines)
    ensures q.first.Some?
  {
  }

  /** However polls, crashes and replays fell, equal committed prefixes give alike tables. */
  lemma SamePrefixesSameTables(a: seq<Step>, b: seq<Step>)
    requires Prefixes(Run(a).files, Run(a).done) == Prefixes(Run(b).files, Run(b).done)
    ensures Alike(Run(a).db, Run(b).db, Seen(Run(a).files, Run(a).done))
  {
    hide Run, Recounts, Prefixes, Alike;
    RunsSummariseTheLog(a);
    RunsSummariseTheLog(b);
    assert Seen(Run(a).files, Run(a).done) == Seen(Run(b).files, Run(b).done);
    RecountIsUnique(Run(a).db, Run(a).times, Run(b).db, Run(b).times, Seen(Run(a).files, Run(a).done));
  }

  lemma RunAppend(steps: seq<Step>, step: Step)
    ensures Run(steps + [step]) == Apply(Run(steps), step)
  {
    assert (steps + [step])[..|steps|] == steps;
  }

  /** Committed prefixes are never forgotten: neither a crash nor a cursor reset shortens
      one; and they never run ahead of the open transaction or of the log. */
  lemma DoneNeverShrinks(steps: seq<Step>, step: Step, path: string)
    ensures var before, after := Run(steps), Run(steps + [step]);
      Upto(before.done, path) <= Upto(after.done, path) <= Upto(after.workDone, path) <= |FileOf(after.files, path)|
  {
    hide Run, Consistent;
    RunAppend(steps, step);
    RunsSummariseTheLog(steps);
    RunsSummariseTheLog(steps + [step]);
  }

  // ------------------------------------------------------------------------- replays

  lemma FourSteps(steps: seq<Step>, a: Step, b: Step, c: Step, d: Step)
    ensures Run(steps + [a, b, c, d]) == Apply(Apply(Apply(Apply(Run(steps), a), b), c), d)
  {
    hide Run, Apply;
    RunAppend(steps, a);
    RunAppend(steps + [a], b);
    RunAppend(steps + [a] + [b], c);
    RunAppend(steps + [a] + [b] + [c], d);
    assert steps + [a, b, c, d] == steps + [a] + [b] + [c] + [d];
  }

  lemma ThreeSteps(steps: seq<Step>, a: Step, b: Step, c: Step)
    ensures Run(steps + [a, b, c]) == Apply(Apply(Apply(Run(steps), a), b), c)
  {
    hide Run, Apply;
    RunAppend(steps, a);
    RunAppend(steps + [a], b);
    RunAppend(steps + [a] + [b], c);
    assert steps + [a, b, c] == steps + [a] + [b] + [c];
  }

  /** After a crash, reading a file again from offset zero gives the tables that reading on
      would have given. */
  lemma ReplayIsReading(steps: seq<Step>, path: string, now: real, later: real)
    ensures var again, on := Run(steps + [Crash, ResetCursor(path), Read(path, later), Commit]),
      Run(steps + [Crash, Read(path, now), Commit]);
      Alike(again.db, on.db, Seen(on.files, on.done))
  {
    var replay, plain := [Crash, ResetCursor(path), Read(path, later), Commit], [Crash, Read(path, now), Commit];
    hide Run, Alike, Prefixes, ProcessFile;
    FourSteps(steps, Crash, ResetCursor(path), Read(path, later), Commit);
    ThreeSteps(steps, Crash, Read(path, now), Commit);
    var again, on := Run(steps + replay), Run(steps + plain);
    assert again.files == on.files && again.done == on.done;
    SamePrefixesSameTables(steps + replay, steps + plain);
  }

  /** Re-reading a fully committed file from offset zero, even after a crash, changes no
      row and no address, but for spans that depend on the time of processing. */
  lemma ReplayChangesNothing(steps: seq<Step>, path: string, now: real)
    requires path in Run(steps).done && Run(steps).done[path] == |FileOf(Run(steps).files, path)|
    ensures Alike(Run(steps + [Crash, ResetCursor(path), Read(path, now), Commit]).db, Run(steps).db,
      Seen(Run(steps).files, Run(steps).done))
  {
    var w, replay := Run(steps), [Crash, ResetCursor(path), Read(path, now), Commit];
    hide Run, Alike, Prefixes, ProcessFile;
    FourSteps(steps, Crash, ResetCursor(path), Read(path, now), Commit);
    assert w.done[path := w.done[path]] == w.done;
    assert Run(steps + replay).files == w.files && Run(steps + replay).done == w.done;
    SamePrefixesSameTables(steps + replay, steps);
  }

  /** Once campaigns are replaced and committed, links are exactly the shared addresses. */
  lemma ReplacedLinksAreExact(steps: seq<Step>, found: seq<Campaign>)
    requires !Run(steps).torn && DistinctIds(found)
    ensures LinkedIffSharing(Run(steps + [Replace(found), Commit]).db)
  {
    hide Run, Consistent;
    RunsSummariseTheLog(steps);
    RunAppend(steps, Replace(found));
    RunAppend(steps + [Replace(found)], Commit);
    assert steps + [Replace(found), Commit] == steps + [Replace(found)] + [Commit];
    ReplaceKeepsConsistent(Run(steps).files, Run(steps).work, Run(steps).workDone, Run(steps).workTimes, found);
  }

  // ------------------------------------------------------------------ polls are runs

  function Reads(logs: seq<(string, seq<Line>)>, now: real): seq<Step> {
    if logs == [] then [] else Reads(logs[..|logs| - 1], now) + [Read(logs[|logs| - 1].0, now)]
  }

  lemma {:induction false} ReadsAreFolds(steps: seq<Step>, logs: seq<(string, seq<Line>)>, now: real)
    requires !Run(steps).torn
    requires forall i :: 0 <= i < |logs| ==> FileOf(Run(steps).files, logs[i].0) == logs[i].1
    ensures var w := Run(steps + Reads(logs, now));
      && !w.torn && w.files == Run(steps).files && w.db == Run(steps).db
      && w.work == ProcessFiles(Run(steps).work, logs, now)
  {
    hide Run, ProcessFile;
    if logs == [] {
      assert steps + [] == steps;
    } else {
      var front, last := logs[..|logs| - 1], logs[|logs| - 1];
      ReadsAreFolds(steps, front, now);
      RunAppend(steps + Reads(front, now), Read(last.0, now));
      assert steps + Reads(logs, now) == steps + Reads(front, now) + [Read(last.0, now)];
    }
  }

  /** From a fresh transaction, what a poll commits is what the run of its reads commits. */
  lemma PollIsRun(steps: seq<Step>, logs: seq<(string, seq<Line>)>, now: real)
    requires !Run(steps).torn && Run(steps).work == Run(steps).db
    requires forall i :: 0 <= i < |logs| ==> FileOf(Run(steps).files, logs[i].0) == logs[i].1
    ensures Run(steps + Reads(logs, now) + [Commit]).db == ProcessFiles(Run(steps).db, logs, now)
  {
    hide Run;
    ReadsAreFolds(steps, logs, now);
    RunAppend(steps + Reads(logs, now), Commit);
  }
}
