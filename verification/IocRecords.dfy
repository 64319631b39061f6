/** What the committed tables hold, said in the fields of the logged events alone. */
module IocRecords {
  import opened Text
  import opened IocStores
  import opened IocWriters
  import opened IocRuns

  // ------------------------------------------------------- what an event puts on record

  predicate IsAddress(e: Event, k: Key) { k == Key("ipv4-addr", e.ip) }

  ghost predicate Mentions(e: Event, k: Key) {
    IsAddress(e, k) || exists x :: x in e.indicators && x.key == k
  }

  ghost predicate Rates(e: Event, k: Key, confidence: real) {
    (IsAddress(e, k) && confidence == 0.95)
    || exists x :: x in e.indicators && x.key == k && x.confidence == confidence
  }

  ghost predicate Tags(e: Event, k: Key, category: string) {
    (IsAddress(e, k) && e.category == Some(category))
    || exists x :: x in e.indicators && x.key == k && category in x.categories
  }

  /** `t` is the stamp of the event, or a time of processing if it has none. */
  predicate DatedBy(e: Event, t: Option<real>, times: set<real>) {
    if e.stamp.Some? then t == e.stamp else t.Some? && t.value in times
  }

  ghost predicate Reflects(row: Row, k: Key, events: set<Event>, times: set<real>) {
    && (forall e, r :: e in events && Rates(e, k, r) ==> r <= row.confidence)
    && (exists e :: e in events && Rates(e, k, row.confidence))
    && (forall c :: c in row.categories <==> exists e :: e in events && Tags(e, k, c))
    && row.first.Some? && row.last.Some?
    && (forall e :: e in events && Mentions(e, k) && e.stamp.Some? ==>
      row.first.value <= e.stamp.value <= row.last.value)
    && (exists e :: e in events && Mentions(e, k) && DatedBy(e, row.first, times))
    && (exists e :: e in events && Mentions(e, k) && DatedBy(e, row.last, times))
  }

  /** The events of the committed log lines. */
  function Committed(w: World): set<Event> {
    set path, i | path in w.done && 0 <= i < |FileOf(w.files, path)| && i < w.done[path]
      && FileOf(w.files, path)[i].event.Some? :: FileOf(w.files, path)[i].event.value
  }

  // ------------------------------------------------------------ the claims of an event

  lemma ClaimSays(e: Event, q: Sighting)
    requires q in Claims(e)
    ensures Mentions(e, q.key) && q.first == q.last == e.stamp && q.ips == {e.ip}
    ensures Rates(e, q.key, q.confidence) && forall c :: c in q.categories ==> Tags(e, q.key, c)
  {
    var o :| o in Sightings(e, 0.0) && q == o.(first := e.stamp, last := e.stamp);
    if x :| x in e.indicators && o == Sighted(IndicatorIoc(e, 0.0, x)) {
      assert x.key == q.key && x.confidence == q.confidence;
    }
  }

  lemma AddressClaim(e: Event) returns (q: Sighting)
    ensures q in Claims(e) && IsAddress(e, q.key) && q.confidence == 0.95 && e.ip in q.ips
  {
    var o := Sighted(IpIoc(e, 0.0));
    assert o in Sightings(e, 0.0);
    q := o.(first := e.stamp, last := e.stamp);
  }

  lemma CategoryClaim(e: Event) returns (q: Sighting)
    requires e.category.Some?
    ensures q in Claims(e) && IsAddress(e, q.key) && e.category.value in q.categories
  {
    var o := Sighted(IpIoc(e, 0.0)).(categories := {e.category.value});
    assert o in Sightings(e, 0.0);
    q := o.(first := e.stamp, last := e.stamp);
  }

  lemma IndicatorClaim(e: Event, x: Indicator) returns (q: Sighting)
    requires x in e.indicators
    ensures q in Claims(e) && q.key == x.key && q.confidence == x.confidence && e.ip in q.ips
    ensures forall c :: c in x.categories ==> c in q.categories
  {
    var o := Sighted(IndicatorIoc(e, 0.0, x));
    assert o in Sightings(e, 0.0);
    q := o.(first := e.stamp, last := e.stamp);
  }

  lemma MentionClaim(e: Event, k: Key) returns (q: Sighting)
    requires Mentions(e, k)
    ensures q in Claims(e) && q.key == k && e.ip in q.ips
  {
    if IsAddress(e, k) {
      q := AddressClaim(e);
    } else {
      var x :| x in e.indicators && x.key == k;
      q := IndicatorClaim(e, x);
    }
  }

  lemma RateClaim(e: Event, k: Key, r: real) returns (q: Sighting)
    requires Rates(e, k, r)
    ensures q in Claims(e) && q.key == k && q.confidence == r
  {
    if IsAddress(e, k) && r == 0.95 {
      q := AddressClaim(e);
    } else {
      var x :| x in e.indicators && x.key == k && x.confidence == r;
      q := IndicatorClaim(e, x);
    }
  }

  lemma TagClaim(e: Event, k: Key, c: string) returns (q: Sighting)
    requires Tags(e, k, c)
    ensures q in Claims(e) && q.key == k && c in q.categories
  {
    if IsAddress(e, k) && e.category == Some(c) {
      q := CategoryClaim(e);
    } else {
      var x :| x in e.indicators && x.key == k && c in x.categories;
      q := IndicatorClaim(e, x);
    }
  }

  // ------------------------------------------------------------- from claims to events

  /** `said` is what `events` claim. */
  ghost predicate ClaimedBy(said: set<Sighting>, events: set<Event>) {
    && (forall q :: q in said ==> exists e :: e in events && q in Claims(e))
    && (forall e, q :: e in events && q in Claims(e) ==> q in said)
  }

  lemma SeenIsClaimed(w: World)
    ensures ClaimedBy(Seen(w.files, w.done), Committed(w))
  {
    hide Claims;
    var logs := Prefixes(w.files, w.done);
    forall q | q in Said(logs)
      ensures exists e :: e in Committed(w) && q in Claims(e)
    {
      var path :| path in logs && q in ClaimsIn(logs[path]);
      var i :| 0 <= i < |logs[path]| && logs[path][i].event.Some? && q in Claims(logs[path][i].event.value);
      assert FileOf(w.files, path)[i] == logs[path][i];
    }
    forall e, q | e in Committed(w) && q in Claims(e)
      ensures q in Said(logs)
    {
      var path, i :| path in w.done && 0 <= i < |FileOf(w.files, path)| && i < w.done[path]
        && FileOf(w.files, path)[i].event == Some(e);
      assert logs[path][i] == FileOf(w.files, path)[i];
      assert q in ClaimsIn(logs[path]);
    }
  }

  /** What was seen, read as events. */
  lemma EventBehind(o: Sighting, seen: set<Sighting>, said: set<Sighting>, events: set<Event>, times: set<real>)
    returns (e: Event)
    requires Realises(seen, said, times) && ClaimedBy(said, events) && o in seen
    ensures e in events && Mentions(e, o.key) && o.ips == {e.ip} && o.first == o.last && DatedBy(e, o.first, times)
    ensures Rates(e, o.key, o.confidence) && forall c :: c in o.categories ==> Tags(e, o.key, c)
  {
    hide Claims, Rates, Tags, Mentions, Voiced;
    var q := ClaimOf(o, seen, said, times);
    e :| e in events && q in Claims(e);
    ClaimSays(e, q);
  }

  lemma SightingBehind(e: Event, q: Sighting, seen: set<Sighting>, said: set<Sighting>, events: set<Event>,
                       times: set<real>)
    returns (o: Sighting)
    requires Realises(seen, said, times) && ClaimedBy(said, events) && e in events && q in Claims(e)
    ensures o in seen && SameButStamp(o, q) && o.first == o.last && DatedBy(e, o.first, times)
  {
    hide Grounded, Claims, Rates, Tags, Mentions;
    o := VoiceOf(q, seen, said, times);
    ClaimSays(e, q);
  }

  lemma RowReflects(row: Row, k: Key, seen: set<Sighting>, said: set<Sighting>, events: set<Event>, times: set<real>)
    requires Merges(row, k, seen) && Realises(seen, said, times) && ClaimedBy(said, events)
    ensures Reflects(row, k, events, times)
  {
    hide Realises, ClaimedBy, Claims, Rates, Tags, Mentions;
    var f :| f in seen && f.key == k && f.first == row.first;
    var l :| l in seen && l.key == k && l.last == row.last;
    var n :| n in seen && n.key == k && n.confidence == row.confidence;
    var ef := EventBehind(f, seen, said, events, times);
    var el := EventBehind(l, seen, said, events, times);
    var en := EventBehind(n, seen, said, events, times);
    forall e, r | e in events && Rates(e, k, r)
      ensures r <= row.confidence
    {
      var q := RateClaim(e, k, r);
      var o := SightingBehind(e, q, seen, said, events, times);
    }
    forall c
      ensures c in row.categories <==> exists e :: e in events && Tags(e, k, c)
    {
      if c in row.categories {
        var o :| o in seen && o.key == k && c in o.categories;
        var e := EventBehind(o, seen, said, events, times);
      }
      if e :| e in events && Tags(e, k, c) {
        var q := TagClaim(e, k, c);
        var o := SightingBehind(e, q, seen, said, events, times);
      }
    }
    forall e | e in events && Mentions(e, k) && e.stamp.Some?
      ensures row.first.Some? && row.last.Some? && row.first.value <= e.stamp.value <= row.last.value
    {
      var q := MentionClaim(e, k);
      var o := SightingBehind(e, q, seen, said, events, times);
    }
  }

  /** On every run, the committed tables say exactly what the committed events said: which
      keys and addresses, the highest confidence, all categories, and the earliest and the
      latest time. */
  lemma RunsRecordTheEvents(steps: seq<Step>)
    ensures var w := Run(steps); var db, events := w.db, Committed(w);
      && (forall k :: k in db.iocs <==> exists e :: e in events && Mentions(e, k))
      && (forall k, ip :: (k, ip) in db.ips <==> exists e :: e in events && e.ip == ip && Mentions(e, k))
      && (forall k :: k in db.iocs ==> Reflects(db.iocs[k], k, events, w.times))
  {
    RunsSummariseTheLog(steps);
    var w := Run(steps);
    SeenIsClaimed(w);
    hide Run, Merges, Realises, ClaimedBy, Claims, Mentions, Reflects, Seen, Committed;
    var said, events := Seen(w.files, w.done), Committed(w);
    var seen :| Summarises(w.db, seen) && Realises(seen, said, w.times);
    forall k | k in w.db.iocs
      ensures Reflects(w.db.iocs[k], k, events, w.times) && exists e :: e in events && Mentions(e, k)
    {
      RowReflects(w.db.iocs[k], k, seen, said, events, w.times);
      var o := SomeSighting(w.db.iocs[k], k, seen);
      var e := EventBehind(o, seen, said, events, w.times);
    }
    forall e, k | e in events && Mentions(e, k)
      ensures k in w.db.iocs && (k, e.ip) in w.db.ips
    {
      var q := MentionClaim(e, k);
      var o := SightingBehind(e, q, seen, said, events, w.times);
    }
    forall p | p in w.db.ips
      ensures exists e :: e in events && e.ip == p.1 && Mentions(e, p.0)
    {
      assert p == (p.0, p.1);
      var o: Sighting :| o in seen && o.key == p.0 && p.1 in o.ips;
      var e := EventBehind(o, seen, said, events, w.times);
    }
  }

  // ------------------------------------------------------------------- reading gets on

  /** Behind a read of a whole file, the next read takes up just what was appended. */
  lemma ReadingOn(db: Db, path: string, lines: seq<Line>, more: seq<Line>, now: real, later: real)
    requires Cursor(db, path) <= Size(lines)
    ensures var once := ProcessFile(db, path, lines, now);
      && Cursor(once, path) == Size(lines)
      && ProcessFile(once, path, lines + more, later) ==
        if more == [] then once
        else ProcessLines(once, more, later).(cursors := once.cursors[path := Size(lines + more)])
  {
    hide ProcessLines;
    var once := ProcessFile(db, path, lines, now);
    ProcessingFrame(once, more, later);
    SizeOfPrefix(lines + more, |lines|);
    assert (lines + more)[..|lines|] == lines && (lines + more)[|lines|..] == more;
    if more == [] { assert lines + more == lines; }
  }

  lemma CommittedStays(steps: seq<Step>, step: Step)
    ensures Committed(Run(steps)) <= Committed(Run(steps + [step]))
  {
    hide Run, Consistent;
    RunAppend(steps, step);
    RunsSummariseTheLog(steps);
    var w, next := Run(steps), Run(steps + [step]);
    forall e | e in Committed(w)
      ensures e in Committed(next)
    {
      var path, i :| path in w.done && 0 <= i < |FileOf(w.files, path)| && i < w.done[path]
        && FileOf(w.files, path)[i].event == Some(e);
      assert FileOf(next.files, path)[i] == FileOf(w.files, path)[i];
    }
  }

  /** What is appended, read and committed is on record: every event of every line. */
  lemma ReadEventsAreCommitted(steps: seq<Step>, path: string, more: seq<Line>, now: real)
    requires !Run(steps).torn
    ensures var w := Run(steps + [Append(path, more), Read(path, now), Commit]);
      forall i :: 0 <= i < |more| && more[i].event.Some? ==> more[i].event.value in Committed(w)
  {
    hide Run, ProcessFile;
    ThreeSteps(steps, Append(path, more), Read(path, now), Commit);
    var before, w := FileOf(Run(steps).files, path), Run(steps + [Append(path, more), Read(path, now), Commit]);
    assert FileOf(w.files, path) == before + more && w.done[path] == |before + more|;
    forall i | 0 <= i < |more| && more[i].event.Some?
      ensures more[i].event.value in Committed(w)
    {
      assert FileOf(w.files, path)[|before| + i] == more[i];
    }
  }

  /** A cursor reset makes the next read take up the whole file again. */
  lemma ResetRereads(steps: seq<Step>, path: string, now: real)
    requires !Run(steps).torn && FileOf(Run(steps).files, path) != []
    ensures var w, next := Run(steps), Run(steps + [ResetCursor(path), Read(path, now)]);
      var lines := FileOf(w.files, path);
      && Cursor(next.work, path) == Size(lines) && !next.torn
      && next.work.iocs == ProcessLines(w.work.(cursors := w.work.cursors[path := 0]), lines, now).iocs
      && next.workTimes == w.workTimes + {now}
  {
    hide Run, ProcessLines;
    RunAppend(steps, ResetCursor(path));
    RunAppend(steps + [ResetCursor(path)], Read(path, now));
    assert steps + [ResetCursor(path), Read(path, now)] == steps + [ResetCursor(path)] + [Read(path, now)];
  }

  /** A statement that fails half-way undoes its transaction, whatever it had written: nothing
      of it can be committed, and neither can what follows until it is rolled back. */
  lemma TornIsUndone(steps: seq<Step>, junk: Db, path: string, now: real)
    ensures var w, torn := Run(steps), Run(steps + [Tear(junk), Read(path, now), Commit]);
      && torn.db == w.db && torn.done == w.done && torn.torn
      && Apply(torn, Crash) == w.(work := w.db, workDone := w.done, workTimes := w.times, torn := false)
  {
    hide Run;
    ThreeSteps(steps, Tear(junk), Read(path, now), Commit);
  }

  /** Replacing campaigns with a repeated id rolls the whole transaction back. */
  lemma RepeatedIdRollsBack(steps: seq<Step>, found: seq<Campaign>)
    requires !Run(steps).torn && !DistinctIds(found)
    ensures var w, next := Run(steps), Run(steps + [Replace(found), Commit]);
      next.db == w.db && next.done == w.done && next.work == w.db
  {
    hide Run;
    RunAppend(steps, Replace(found));
    RunAppend(steps + [Replace(found)], Commit);
    assert steps + [Replace(found), Commit] == steps + [Replace(found)] + [Commit];
  }
}
