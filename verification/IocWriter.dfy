/** The log tailer that fills the IOC tables (src/api/ioc_writer.py), as a run of appends,
    reads, commits, crashes, cursor resets and campaign replacements. */
module IocWriters {
  import opened Text
  import opened IocStores

  // -------------------------------------------------------------------- log lines

  /** What extraction makes of an event besides its address. */
  datatype Indicator = Indicator(key: Key, confidence: real, categories: seq<string>)

  datatype Event = Event(ip: string, stamp: Option<real>, indicators: seq<Indicator>, category: Option<string>)

  type Bytes = n: int | n > 0 witness 1

  /** A complete line of `size` bytes; `None` for the lines that the writer skips. */
  datatype Line = Line(size: Bytes, event: Option<Event>)

  function Size(lines: seq<Line>): nat {
    if lines == [] then 0 else lines[0].size + Size(lines[1..])
  }

  /** What is read after seeking to `offset`; the tail of a line cut in two does not parse. */
  function LinesFrom(lines: seq<Line>, offset: nat): seq<Line> {
    if offset == 0 || lines == [] then lines
    else LinesFrom(lines[1..], if offset < lines[0].size then 0 else offset - lines[0].size)
  }

  // ------------------------------------------------------------------- processing

  function IpKey(ip: string): Key { Key("ipv4-addr", ip) }

  function StampOf(e: Event, now: real): Option<real> {
    if e.stamp.Some? then e.stamp else Some(now)
  }

  function IpIoc(e: Event, now: real): Ioc {
    Ioc(IpKey(e.ip), StampOf(e, now), StampOf(e, now), 0.95, [], [e.ip], [])
  }

  function IndicatorIoc(e: Event, now: real, x: Indicator): Ioc {
    Ioc(x.key, StampOf(e, now), StampOf(e, now), x.confidence, x.categories, [e.ip], [])
  }

  function UpsertIndicators(db: Db, e: Event, now: real, xs: seq<Indicator>): Db {
    if xs == [] then db
    else Upsert(UpsertIndicators(db, e, now, xs[..|xs| - 1]), IndicatorIoc(e, now, xs[|xs| - 1]))
  }

  function ProcessEvent(db: Db, e: Event, now: real): Db {
    var filled := UpsertIndicators(Upsert(db, IpIoc(e, now)), e, now, e.indicators);
    if e.category.Some? then Backfill(filled, IpKey(e.ip), e.category.value) else filled
  }

  function ProcessLines(db: Db, lines: seq<Line>, now: real): Db {
    if lines == [] then db
    else
      var before := ProcessLines(db, lines[..|lines| - 1], now);
      var event := lines[|lines| - 1].event;
      if event.Some? then ProcessEvent(before, event.value, now) else before
  }

  function Cursor(db: Db, path: string): nat {
    if path in db.cursors then db.cursors[path] else 0
  }

  function ProcessFile(db: Db, path: string, lines: seq<Line>, now: real): Db {
    if Size(lines) <= Cursor(db, path) then db
    else
      var read := ProcessLines(db, LinesFrom(lines, Cursor(db, path)), now);
      read.(cursors := read.cursors[path := Size(lines)])
  }

  method ProcessFileStepwise(conn: Connection, path: string, lines: seq<Line>, now: real)
    modifies conn
    ensures conn.View() == ProcessFile(old(conn.View()), path, lines, now)
    ensures conn.committed == old(conn.committed)
  {
    var offset := if path in conn.cursors then conn.cursors[path] else 0;
    if Size(lines) <= offset { return; }
    var unread := LinesFrom(lines, offset);
    for i := 0 to |unread|
      invariant conn.View() == ProcessLines(old(conn.View()), unread[..i], now)
      invariant conn.committed == old(conn.committed)
    {
      assert unread[..i + 1][..i] == unread[..i];
      if unread[i].event.Some? { ProcessOne(conn, unread[i].event.value, now); }
    }
    assert unread[..|unread|] == unread;
    conn.SetCursor(path, Size(lines));
  }

  function ProcessFiles(db: Db, logs: seq<(string, seq<Line>)>, now: real): Db {
    if logs == [] then db
    else
      var (path, lines) := logs[|logs| - 1];
      ProcessFile(ProcessFiles(db, logs[..|logs| - 1], now), path, lines, now)
  }

  /** One poll is one transaction: an exception in file `failing` undoes all of it. */
  method Poll(conn: Connection, logs: seq<(string, seq<Line>)>, now: real, failing: Option<nat>)
    requires conn.View() == conn.committed
    modifies conn
    ensures conn.View() == conn.committed
    ensures conn.committed ==
      if failing.Some? && failing.value < |logs| then old(conn.committed)
      else ProcessFiles(old(conn.committed), logs, now)
  {
    for i := 0 to |logs|
      invariant conn.View() == ProcessFiles(old(conn.committed), logs[..i], now)
      invariant conn.committed == old(conn.committed)
      invariant failing.Some? ==> i <= failing.value
    {
      if failing == Some(i) {
        conn.Rollback();
        return;
      }
      assert logs[..i + 1][..i] == logs[..i];
      ProcessFileStepwise(conn, logs[i].0, logs[i].1, now);
    }
    assert logs[..|logs|] == logs;
    conn.Commit();
  }

  method ProcessOne(conn: Connection, e: Event, now: real)
    modifies conn
    ensures conn.View() == ProcessEvent(old(conn.View()), e, now)
    ensures conn.committed == old(conn.committed)
  {
    conn.UpsertIoc(IpIoc(e, now));
    ghost var start := conn.View();
    for i := 0 to |e.indicators|
      invariant conn.View() == UpsertIndicators(start, e, now, e.indicators[..i])
      invariant conn.committed == old(conn.committed)
    {
      assert e.indicators[..i + 1][..i] == e.indicators[..i];
      conn.UpsertIoc(IndicatorIoc(e, now, e.indicators[i]));
    }
    assert e.indicators[..|e.indicators|] == e.indicators;
    if e.category.Some? { conn.BackfillCategory(IpKey(e.ip), e.category.value); }
  }

  // ----------------------------------------------- the order-independent summary

  /** One thing an event says about one indicator. */
  datatype Sighting = Sighting(key: Key, first: Option<real>, last: Option<real>, confidence: real,
                               categories: set<string>, ips: set<string>)

  function Sighted(ioc: Ioc): Sighting {
    Sighting(ioc.key, ioc.first, ioc.last, ioc.confidence, set c | c in ioc.categories, set ip | ip in ioc.ips)
  }

  /** Not later, an absent stamp being later than all. */
  predicate NotAfter(a: Option<real>, b: Option<real>) { b.None? || (a.Some? && a.value <= b.value) }

  /** Not earlier, an absent stamp being earlier than all. */
  predicate NotBefore(a: Option<real>, b: Option<real>) { b.None? || (a.Some? && a.value >= b.value) }

  /** `row` is the merge of the sightings of `key` in `seen`, in whatever order they came. */
  ghost predicate Merges(row: Row, key: Key, seen: set<Sighting>) {
    && (forall o :: o in seen && o.key == key ==>
      NotAfter(row.first, o.first) && NotBefore(row.last, o.last) && row.confidence >= o.confidence)
    && (exists o :: o in seen && o.key == key && o.first == row.first)
    && (exists o :: o in seen && o.key == key && o.last == row.last)
    && (exists o :: o in seen && o.key == key && o.confidence == row.confidence)
    && (forall c :: c in row.categories <==> exists o :: o in seen && o.key == key && c in o.categories)
  }

  ghost predicate Summarises(db: Db, seen: set<Sighting>) {
    && (forall o :: o in seen ==> o.key in db.iocs)
    && (forall k :: k in db.iocs ==> Merges(db.iocs[k], k, seen))
    && (forall k, ip :: (k, ip) in db.ips <==> exists o :: o in seen && o.key == k && ip in o.ips)
  }

  /** The summary fixes every row and the whole address table. */
  lemma SummaryIsUnique(a: Db, b: Db, seen: set<Sighting>)
    requires Summarises(a, seen) && Summarises(b, seen)
    ensures a.iocs.Keys == b.iocs.Keys && a.ips == b.ips
    ensures forall k :: k in a.iocs ==> SameRow(a.iocs[k], b.iocs[k])
  {
    hide Merges, SameRow;
    SameKeys(a, b, seen);
    SameKeys(b, a, seen);
    forall k | k in a.iocs
      ensures SameRow(a.iocs[k], b.iocs[k])
    {
      MergeIsUnique(a.iocs[k], b.iocs[k], k, seen);
    }
  }

  lemma SameKeys(a: Db, b: Db, seen: set<Sighting>)
    requires Summarises(a, seen) && Summarises(b, seen)
    ensures a.iocs.Keys <= b.iocs.Keys && a.ips <= b.ips
  {
    forall k | k in a.iocs ensures k in b.iocs {
      assert Merges(a.iocs[k], k, seen);
    }
    hide Merges;
    forall p | p in a.ips ensures p in b.ips {
      assert p == (p.0, p.1);
    }
  }

  lemma MergeIsUnique(x: Row, y: Row, k: Key, seen: set<Sighting>)
    requires Merges(x, k, seen) && Merges(y, k, seen)
    ensures SameRow(x, y)
  {
  }

  predicate SameRow(a: Row, b: Row) {
    a.first == b.first && a.last == b.last && a.confidence == b.confidence
    && (set c | c in a.categories) == (set c | c in b.categories)
  }

  predicate SameTables(a: Db, b: Db) {
    a.iocs.Keys == b.iocs.Keys && a.ips == b.ips && forall k :: k in a.iocs ==> SameRow(a.iocs[k], b.iocs[k])
  }

  // -------------------------------------------------- each statement keeps the summary

  lemma {:induction false} AddMissingIsUnion(known: seq<string>, more: seq<string>)
    ensures forall c :: c in AddMissing(known, more) <==> c in known || c in more
    ensures known <= AddMissing(known, more)
  {
    if more != [] {
      AddMissingIsUnion(known, more[..|more| - 1]);
      assert more == more[..|more| - 1] + [more[|more| - 1]];
    }
  }

  lemma MergeOne(row: Row, key: Key, seen: set<Sighting>, ioc: Ioc)
    requires Merges(row, key, seen) && ioc.key == key
    ensures Merges(Row(Earliest(row.first, ioc.first), Latest(row.last, ioc.last),
      Larger(row.confidence, ioc.confidence),
                       AddMissing(row.categories, ioc.categories)), key, seen + {Sighted(ioc)})
  {
    var o, all := Sighted(ioc), seen + {Sighted(ioc)};
    var f :| f in seen && f.key == key && f.first == row.first;
    var l :| l in seen && l.key == key && l.last == row.last;
    var n :| n in seen && n.key == key && n.confidence == row.confidence;
    assert {f, l, n, o} <= all;
    var merged := AddMissing(row.categories, ioc.categories);
    AddMissingIsUnion(row.categories, ioc.categories);
    forall c
      ensures c in merged <==> exists x :: x in all && x.key == key && c in x.categories
    {
      if c in ioc.categories { assert o in all && c in o.categories; }
    }
  }

  lemma MergeFirst(key: Key, seen: set<Sighting>, ioc: Ioc)
    requires ioc.key == key && forall o :: o in seen ==> o.key != key
    ensures Merges(Row(ioc.first, ioc.last, ioc.confidence, ioc.categories), key, seen + {Sighted(ioc)})
  {
    assert Sighted(ioc) in seen + {Sighted(ioc)};
  }

  lemma MergeOther(row: Row, key: Key, seen: set<Sighting>, o: Sighting)
    requires Merges(row, key, seen) && o.key != key
    ensures Merges(row, key, seen + {o})
  {
    var f :| f in seen && f.key == key && f.first == row.first;
    var l :| l in seen && l.key == key && l.last == row.last;
    var n :| n in seen && n.key == key && n.confidence == row.confidence;
    assert {f, l, n} <= seen + {o};
  }

  lemma IpsGrow(ips: set<(Key, string)>, ips': set<(Key, string)>, seen: set<Sighting>, o: Sighting)
    requires forall k, ip :: (k, ip) in ips <==> exists x :: x in seen && x.key == k && ip in x.ips
    requires forall k, ip :: (k, ip) in ips' <==> (k, ip) in ips || (k == o.key && ip in o.ips)
    ensures forall k, ip :: (k, ip) in ips' <==> exists x :: x in seen + {o} && x.key == k && ip in x.ips
  {
    assert o in seen + {o};
  }

  lemma UpsertSummarises(db: Db, seen: set<Sighting>, ioc: Ioc)
    requires Summarises(db, seen)
    ensures Summarises(Upsert(db, ioc), seen + {Sighted(ioc)})
  {
    hide Merges;
    var o, next := Sighted(ioc), Upsert(db, ioc);
    forall k | k in next.iocs
      ensures Merges(next.iocs[k], k, seen + {o})
    {
      if k != ioc.key { MergeOther(db.iocs[k], k, seen, o); }
      else if k in db.iocs { MergeOne(db.iocs[k], k, seen, ioc); }
      else { MergeFirst(k, seen, ioc); }
    }
    IpsGrow(db.ips, next.ips, seen, o);
  }

  /** A backfilled category reads as one more sighting, equal to `o` but for its category. */
  lemma BackfillSummarises(db: Db, seen: set<Sighting>, o: Sighting, category: string)
    requires Summarises(db, seen) && o in seen
    ensures Summarises(Backfill(db, o.key, category), seen + {o.(categories := {category})})
  {
    hide Merges;
    var x, next := o.(categories := {category}), Backfill(db, o.key, category);
    forall k | k in next.iocs
      ensures Merges(next.iocs[k], k, seen + {x})
    {
      if k != o.key { MergeOther(db.iocs[k], k, seen, x); } else { MergeCategory(db.iocs[k], seen, o, category); }
    }
    IpsGrow(db.ips, next.ips, seen, x);
  }

  lemma MergeCategory(row: Row, seen: set<Sighting>, o: Sighting, category: string)
    requires Merges(row, o.key, seen) && o in seen
    ensures var cats := if category in row.categories then row.categories else row.categories + [category];
      Merges(row.(categories := cats), o.key, seen + {o.(categories := {category})})
  {
    var x := o.(categories := {category});
    var f :| f in seen && f.key == o.key && f.first == row.first;
    var l :| l in seen && l.key == o.key && l.last == row.last;
    var n :| n in seen && n.key == o.key && n.confidence == row.confidence;
    assert {f, l, n, x} <= seen + {x};
    assert category in x.categories;
  }

  // ------------------------------------------------------------- events and lines

  /** Everything an event says when it is processed at time `now`. */
  function Sightings(e: Event, now: real): set<Sighting> {
    var ip := Sighted(IpIoc(e, now));
    {ip} + (set x | x in e.indicators :: Sighted(IndicatorIoc(e, now, x)))
    + if e.category.Some? then {ip.(categories := {e.category.value})} else {}
  }

  lemma {:induction false} IndicatorsSummarise(db: Db, seen: set<Sighting>, e: Event, now: real, xs: seq<Indicator>)
    requires Summarises(db, seen)
    ensures Summarises(UpsertIndicators(db, e, now, xs), seen + set x | x in xs :: Sighted(IndicatorIoc(e, now, x)))
  {
    hide Summarises, Sighted;
    if xs == [] {
      assert seen + (set x | x in xs :: Sighted(IndicatorIoc(e, now, x))) == seen;
    } else {
      var before, last := xs[..|xs| - 1], xs[|xs| - 1];
      var s := seen + set x | x in before :: Sighted(IndicatorIoc(e, now, x));
      IndicatorsSummarise(db, seen, e, now, before);
      UpsertSummarises(UpsertIndicators(db, e, now, before), s, IndicatorIoc(e, now, last));
      assert xs == before + [last];
      assert s + {Sighted(IndicatorIoc(e, now, last))} == seen + set x | x in xs :: Sighted(IndicatorIoc(e, now, x));
    }
  }

  lemma EventSummarises(db: Db, seen: set<Sighting>, e: Event, now: real)
    requires Summarises(db, seen)
    ensures Summarises(ProcessEvent(db, e, now), seen + Sightings(e, now))
  {
    hide Summarises, Sighted, Upsert, Backfill;
    var ip := Sighted(IpIoc(e, now));
    var others := set x | x in e.indicators :: Sighted(IndicatorIoc(e, now, x));
    UpsertSummarises(db, seen, IpIoc(e, now));
    IndicatorsSummarise(Upsert(db, IpIoc(e, now)), seen + {ip}, e, now, e.indicators);
    var s := seen + {ip} + others;
    var filled := UpsertIndicators(Upsert(db, IpIoc(e, now)), e, now, e.indicators);
    if e.category.Some? {
      SightedKey(IpIoc(e, now));
      BackfillSummarises(filled, s, ip, e.category.value);
      assert s + {ip.(categories := {e.category.value})} == seen + Sightings(e, now);
    } else {
      assert s == seen + Sightings(e, now);
    }
  }

  lemma SightedKey(ioc: Ioc)
    ensures Sighted(ioc).key == ioc.key
  {
  }

  // --------------------------------------------------------- what a log says by itself

  /** What an event says by itself: without a stamp it leaves the time open. */
  function Claims(e: Event): set<Sighting> {
    set o | o in Sightings(e, 0.0) :: o.(first := e.stamp, last := e.stamp)
  }

  function ClaimsIn(lines: seq<Line>): set<Sighting> {
    set i, o | 0 <= i < |lines| && lines[i].event.Some? && o in Claims(lines[i].event.value) :: o
  }

  predicate SameButStamp(a: Sighting, b: Sighting) {
    a.key == b.key && a.confidence == b.confidence && a.categories == b.categories && a.ips == b.ips
  }

  /** `o` is the claim `q`, at one of `times` if `q` leaves the time open. */
  predicate Voices(o: Sighting, q: Sighting, times: set<real>) {
    && SameButStamp(o, q)
    && if q.first.Some? then o == q else o.first == o.last && o.first.Some? && o.first.value in times
  }

  /** `seen` holds nothing but claims, and each of them, open times being among `times`. */
  ghost predicate Realises(seen: set<Sighting>, said: set<Sighting>, times: set<real>) {
    Grounded(seen, said, times) && Voiced(seen, said, times)
  }

  ghost predicate Grounded(seen: set<Sighting>, said: set<Sighting>, times: set<real>) {
    forall o :: o in seen ==> exists q :: q in said && Voices(o, q, times)
  }

  ghost predicate Voiced(seen: set<Sighting>, said: set<Sighting>, times: set<real>) {
    forall q :: q in said ==> exists o :: o in seen && Voices(o, q, times)
  }

  /** The tables are the merge of `said`, each open time being one or more of `times`, at which
      lines were processed. */
  ghost predicate Recounts(db: Db, said: set<Sighting>, times: set<real>) {
    exists seen :: Summarises(db, seen) && Realises(seen, said, times)
  }

  /** The rows that an event merges into. */
  function Touched(e: Event): set<Key> {
    {IpKey(e.ip)} + set x | x in e.indicators :: x.key
  }

  lemma SightingsOf(e: Event, now: real)
    ensures forall o :: o in Sightings(e, now) ==> o.key in Touched(e) && o.first == o.last == StampOf(e, now)
    ensures forall k :: k in Touched(e) ==> exists o :: o in Sightings(e, now) && o.key == k
    ensures forall later, o :: o in Sightings(e, later) ==>
      o.(first := StampOf(e, now), last := StampOf(e, now)) in Sightings(e, now)
  {
    forall k | k in Touched(e)
      ensures exists o :: o in Sightings(e, now) && o.key == k
    {
      if k == IpKey(e.ip) {
        assert Sighted(IpIoc(e, now)) in Sightings(e, now);
      } else {
        var x :| x in e.indicators && x.key == k;
        assert Sighted(IndicatorIoc(e, now, x)) in Sightings(e, now);
      }
    }
    forall later, o | o in Sightings(e, later)
      ensures o.(first := StampOf(e, now), last := StampOf(e, now)) in Sightings(e, now)
    {
      if x :| x in e.indicators && o == Sighted(IndicatorIoc(e, later, x)) {
        assert o.(first := StampOf(e, now), last := StampOf(e, now)) == Sighted(IndicatorIoc(e, now, x));
      }
    }
  }

  lemma SightingsRealise(e: Event, now: real)
    ensures Realises(Sightings(e, now), Claims(e), {now})
  {
    SightingsOf(e, now);
    SightingsOf(e, 0.0);
    hide Sightings;
    forall o | o in Sightings(e, now)
      ensures exists q :: q in Claims(e) && Voices(o, q, {now})
    {
      var zero := o.(first := StampOf(e, 0.0), last := StampOf(e, 0.0));
      assert zero in Sightings(e, 0.0) && zero.(first := e.stamp, last := e.stamp) in Claims(e);
      assert Voices(o, zero.(first := e.stamp, last := e.stamp), {now});
    }
    forall q | q in Claims(e)
      ensures exists o :: o in Sightings(e, now) && Voices(o, q, {now})
    {
      var zero :| zero in Sightings(e, 0.0) && q == zero.(first := e.stamp, last := e.stamp);
      assert Voices(zero.(first := StampOf(e, now), last := StampOf(e, now)), q, {now});
    }
  }

  lemma VoicesLater(o: Sighting, q: Sighting, times: set<real>, more: set<real>)
    requires Voices(o, q, times) && times <= more
    ensures Voices(o, q, more)
  {
  }

  lemma GroundedUnion(a: set<Sighting>, said: set<Sighting>, times: set<real>, b: set<Sighting>, more: set<Sighting>,
                      others: set<real>)
    requires Grounded(a, said, times) && Grounded(b, more, others)
    ensures Grounded(a + b, said + more, times + others)
  {
    hide Voices;
    forall o | o in a + b
      ensures exists q :: q in said + more && Voices(o, q, times + others)
    {
      if o in a {
        var q :| q in said && Voices(o, q, times);
        VoicesLater(o, q, times, times + others);
      } else {
        var q :| q in more && Voices(o, q, others);
        VoicesLater(o, q, others, times + others);
      }
    }
  }

  lemma VoicedUnion(a: set<Sighting>, said: set<Sighting>, times: set<real>, b: set<Sighting>, more: set<Sighting>,
                    others: set<real>)
    requires Voiced(a, said, times) && Voiced(b, more, others)
    ensures Voiced(a + b, said + more, times + others)
  {
    hide Voices;
    forall q | q in said + more
      ensures exists o :: o in a + b && Voices(o, q, times + others)
    {
      if q in said {
        var o :| o in a && Voices(o, q, times);
        VoicesLater(o, q, times, times + others);
      } else {
        var o :| o in b && Voices(o, q, others);
        VoicesLater(o, q, others, times + others);
      }
    }
  }

  lemma EventRecounts(db: Db, said: set<Sighting>, times: set<real>, e: Event, now: real)
    requires Recounts(db, said, times) && now in times
    ensures Recounts(ProcessEvent(db, e, now), said + Claims(e), times)
  {
    hide Summarises, Grounded, Voiced, Sightings, Claims, ProcessEvent;
    var seen :| Summarises(db, seen) && Realises(seen, said, times);
    EventSummarises(db, seen, e, now);
    SightingsRealise(e, now);
    GroundedUnion(seen, said, times, Sightings(e, now), Claims(e), {now});
    VoicedUnion(seen, said, times, Sightings(e, now), Claims(e), {now});
    assert times + {now} == times;
  }

  lemma RecountsLater(db: Db, said: set<Sighting>, times: set<real>, more: set<real>)
    requires Recounts(db, said, times)
    ensures Recounts(db, said, times + more)
  {
    hide Summarises, Grounded, Voiced;
    var seen :| Summarises(db, seen) && Realises(seen, said, times);
    NothingRealised(more);
    GroundedUnion(seen, said, times, {}, {}, more);
    VoicedUnion(seen, said, times, {}, {}, more);
    assert seen + {} == seen && said + {} == said;
  }

  lemma NothingRealised(times: set<real>)
    ensures Grounded({}, {}, times) && Voiced({}, {}, times)
  {
  }

  /** Processing lines at time `now` extends what the tables recount by what the lines say. */
  lemma {:induction false} LinesRecount(db: Db, said: set<Sighting>, times: set<real>, lines: seq<Line>, now: real)
    requires Recounts(db, said, times) && now in times
    ensures Recounts(ProcessLines(db, lines, now), said + ClaimsIn(lines), times)
  {
    hide Recounts, Claims, ProcessEvent;
    if lines == [] {
      assert said + ClaimsIn(lines) == said;
    } else {
      var before, last := lines[..|lines| - 1], lines[|lines| - 1];
      LinesRecount(db, said, times, before, now);
      ClaimsInAppend(before, [last]);
      assert lines == before + [last];
      if last.event.Some? {
        EventRecounts(ProcessLines(db, before, now), said + ClaimsIn(before), times, last.event.value, now);
        assert said + ClaimsIn(before) + Claims(last.event.value) == said + ClaimsIn(lines);
      } else {
        assert ClaimsIn(before) == ClaimsIn(lines);
      }
    }
  }

  lemma ClaimsInAppend(a: seq<Line>, b: seq<Line>)
    ensures ClaimsIn(a + b) == ClaimsIn(a) + ClaimsIn(b)
    ensures |b| == 1 ==> ClaimsIn(b) == if b[0].event.Some? then Claims(b[0].event.value) else {}
  {
    hide Claims;
    forall o | o in ClaimsIn(b)
      ensures o in ClaimsIn(a + b)
    {
      var i :| 0 <= i < |b| && b[i].event.Some? && o in Claims(b[i].event.value);
      assert (a + b)[|a| + i] == b[i];
    }
    forall o | o in ClaimsIn(a)
      ensures o in ClaimsIn(a + b)
    {
      var i :| 0 <= i < |a| && a[i].event.Some? && o in Claims(a[i].event.value);
      assert (a + b)[i] == a[i];
    }
  }

  /** Where every claim carries its time, the tables are exactly the merge of the claims. */
  lemma StampedIsSummary(db: Db, said: set<Sighting>, times: set<real>)
    requires Recounts(db, said, times) && forall q :: q in said ==> q.first.Some?
    ensures Summarises(db, said)
  {
    hide Summarises;
    var seen :| Summarises(db, seen) && Realises(seen, said, times);
    assert seen == said;
  }

  ghost predicate StampedFor(said: set<Sighting>, k: Key) {
    forall q :: q in said && q.key == k ==> q.first.Some?
  }

  /** Equal keys, addresses, confidences and categories; and equal time spans in every row
      whose claims all carry their time. */
  ghost predicate Alike(a: Db, b: Db, said: set<Sighting>) {
    && a.iocs.Keys == b.iocs.Keys && a.ips == b.ips
    && forall k :: k in a.iocs ==>
      SameButSpan(a.iocs[k], b.iocs[k]) && (StampedFor(said, k) ==> SameRow(a.iocs[k], b.iocs[k]))
  }

  predicate SameButSpan(a: Row, b: Row) {
    a.confidence == b.confidence && (set c | c in a.categories) == (set c | c in b.categories)
  }

  /** What the tables recount fixes them, whenever and in whatever order it was processed. */
  lemma RecountIsUnique(a: Db, times: set<real>, b: Db, times': set<real>, said: set<Sighting>)
    requires Recounts(a, said, times) && Recounts(b, said, times')
    ensures Alike(a, b, said)
  {
    hide Summarises, Realises;
    var seen :| Summarises(a, seen) && Realises(seen, said, times);
    var seen' :| Summarises(b, seen') && Realises(seen', said, times');
    RealisedMatch(seen, times, seen', times', said);
    RealisedMatch(seen', times', seen, times, said);
    RecountCovers(a, seen, b, seen', said);
    RecountCovers(b, seen', a, seen, said);
  }

  /** Each sighting has a counterpart that differs in an open time at most. */
  ghost predicate Matches(seen: set<Sighting>, seen': set<Sighting>, said: set<Sighting>) {
    forall o :: o in seen ==> exists o' :: o' in seen' && SameButStamp(o, o') && (StampedFor(said, o.key) ==> o' == o)
  }

  lemma RealisedMatch(seen: set<Sighting>, times: set<real>, seen': set<Sighting>, times': set<real>,
                      said: set<Sighting>)
    requires Realises(seen, said, times) && Realises(seen', said, times')
    ensures Matches(seen, seen', said)
  {
    hide Grounded, Voiced;
    forall o | o in seen
      ensures exists o' :: o' in seen' && SameButStamp(o, o') && (StampedFor(said, o.key) ==> o' == o)
    {
      var q := ClaimOf(o, seen, said, times);
      var o' := VoiceOf(q, seen', said, times');
    }
  }

  lemma ClaimOf(o: Sighting, seen: set<Sighting>, said: set<Sighting>, times: set<real>) returns (q: Sighting)
    requires Grounded(seen, said, times) && o in seen
    ensures q in said && Voices(o, q, times)
  {
    q :| q in said && Voices(o, q, times);
  }

  lemma VoiceOf(q: Sighting, seen: set<Sighting>, said: set<Sighting>, times: set<real>) returns (o: Sighting)
    requires Voiced(seen, said, times) && q in said
    ensures o in seen && Voices(o, q, times)
  {
    o :| o in seen && Voices(o, q, times);
  }

  lemma Counterpart(o: Sighting, seen: set<Sighting>, seen': set<Sighting>, said: set<Sighting>) returns (o': Sighting)
    requires Matches(seen, seen', said) && o in seen
    ensures o' in seen' && SameButStamp(o, o') && (StampedFor(said, o.key) ==> o' == o)
  {
    hide StampedFor;
    o' :| o' in seen' && SameButStamp(o, o') && (StampedFor(said, o.key) ==> o' == o);
  }

  lemma RecountCovers(a: Db, seen: set<Sighting>, b: Db, seen': set<Sighting>, said: set<Sighting>)
    requires Summarises(a, seen) && Summarises(b, seen') && Matches(seen, seen', said)
    ensures a.iocs.Keys <= b.iocs.Keys && a.ips <= b.ips
    ensures forall k :: k in a.iocs ==> Covers(a.iocs[k], b.iocs[k], StampedFor(said, k))
  {
    hide Merges, StampedFor, Matches, Covers;
    forall k | k in a.iocs
      ensures k in b.iocs && Covers(a.iocs[k], b.iocs[k], StampedFor(said, k))
    {
      var o := SomeSighting(a.iocs[k], k, seen);
      var o' := Counterpart(o, seen, seen', said);
      RowCovers(a.iocs[k], seen, b.iocs[k], seen', said, k);
    }
    forall p | p in a.ips
      ensures p in b.ips
    {
      assert p == (p.0, p.1);
      var o :| o in seen && o.key == p.0 && p.1 in o.ips;
      var o' := Counterpart(o, seen, seen', said);
    }
  }

  lemma SomeSighting(row: Row, k: Key, seen: set<Sighting>) returns (o: Sighting)
    requires Merges(row, k, seen)
    ensures o in seen && o.key == k
  {
    o :| o in seen && o.key == k && o.first == row.first;
  }

  predicate Covers(x: Row, y: Row, stamped: bool) {
    && x.confidence <= y.confidence
    && (forall c :: c in x.categories ==> c in y.categories)
    && (stamped ==> NotAfter(y.first, x.first) && NotBefore(y.last, x.last))
  }

  lemma RowCovers(x: Row, seen: set<Sighting>, y: Row, seen': set<Sighting>, said: set<Sighting>, k: Key)
    requires Merges(x, k, seen) && Merges(y, k, seen') && Matches(seen, seen', said)
    ensures Covers(x, y, StampedFor(said, k))
  {
    hide StampedFor, Matches;
    var f :| f in seen && f.key == k && f.first == x.first;
    var l :| l in seen && l.key == k && l.last == x.last;
    var n :| n in seen && n.key == k && n.confidence == x.confidence;
    var f' := Counterpart(f, seen, seen', said);
    var l' := Counterpart(l, seen, seen', said);
    var n' := Counterpart(n, seen, seen', said);
    forall c | c in x.categories
      ensures c in y.categories
    {
      var o :| o in seen && o.key == k && c in o.categories;
      var o' := Counterpart(o, seen, seen', said);
    }
  }

  // ------------------------------------------------------------- reprocessing an event

  predicate Spans(row: Row, t: real) {
    row.first.Some? && row.last.Some? && row.first.value <= t <= row.last.value
  }

  /** Saying the same again inside the spans on record leaves the summary a summary. */
  lemma InvisibleAgain(db: Db, seen: set<Sighting>, more: set<Sighting>)
    requires Summarises(db, seen)
    requires forall o :: o in more ==> exists same :: same in seen && SameButStamp(o, same)
    requires forall o :: o in more ==>
      o.key in db.iocs && NotAfter(db.iocs[o.key].first, o.first) && NotBefore(db.iocs[o.key].last, o.last)
    ensures Summarises(db, seen + more)
  {
    forall k | k in db.iocs
      ensures Merges(db.iocs[k], k, seen + more)
    {
      assert Merges(db.iocs[k], k, seen);
      forall o | o in seen + more && o.key == k
        ensures db.iocs[k].confidence >= o.confidence
      {
        if o in more { var same :| same in seen && SameButStamp(o, same); }
      }
    }
  }

  /** When processing an event again changes nothing: it carries a stamp, or the new time
      lies inside the span on record of every row that it merges into. */
  lemma ReprocessingIsSilentIff(db: Db, seen: set<Sighting>, e: Event, now: real, later: real)
    requires Summarises(db, seen)
    ensures var once := ProcessEvent(db, e, now);
      SameTables(ProcessEvent(once, e, later), once) <==>
      e.stamp.Some? || forall k :: k in Touched(e) ==> k in once.iocs && Spans(once.iocs[k], later)
  {
    hide ProcessEvent, Summarises, Sightings;
    var once := ProcessEvent(db, e, now);
    var twice := ProcessEvent(once, e, later);
    var known := seen + Sightings(e, now);
    EventSummarises(db, seen, e, now);
    EventSummarises(once, known, e, later);
    SightingsOf(e, now);
    SightingsOf(e, later);
    if e.stamp.Some? {
      assert Sightings(e, later) == Sightings(e, now);
      assert known + Sightings(e, later) == known;
      SummaryIsUnique(twice, once, known);
    } else if forall k :: k in Touched(e) ==> k in once.iocs && Spans(once.iocs[k], later) {
      SaidBefore(e, now, later, known);
      InvisibleAgain(once, known, Sightings(e, later));
      SummaryIsUnique(twice, once, known + Sightings(e, later));
    } else {
      var k :| k in Touched(e) && !(k in once.iocs && Spans(once.iocs[k], later));
      SpansItsSightings(once, known, k, now);
      SpansItsSightings(twice, known + Sightings(e, later), k, later);
    }
  }

  lemma SaidBefore(e: Event, now: real, later: real, known: set<Sighting>)
    requires Sightings(e, now) <= known
    ensures forall o :: o in Sightings(e, later) ==> exists same :: same in known && SameButStamp(o, same)
  {
    SightingsOf(e, now);
    hide Sightings;
    forall o | o in Sightings(e, later)
      ensures exists same :: same in known && SameButStamp(o, same)
    {
      assert o.(first := StampOf(e, now), last := StampOf(e, now)) in known;
    }
  }

  lemma SpansItsSightings(db: Db, seen: set<Sighting>, k: Key, t: real)
    requires Summarises(db, seen)
    requires exists o :: o in seen && o.key == k && o.first == o.last == Some(t)
    ensures k in db.iocs && Spans(db.iocs[k], t)
  {
    assert k in db.iocs;
    assert Merges(db.iocs[k], k, seen);
  }

  /** An event without a stamp, processed again later, moves the last sight of its address. */
  lemma ReplayMovesUnstamped(ip: string, now: real, later: real)
    requires now < later
    ensures var e := Event(ip, None, [], None);
      var once := ProcessEvent(EMPTY, e, now);
      !SameTables(ProcessEvent(once, e, later), once)
  {
    var e := Event(ip, None, [], None);
    assert IpKey(ip) in Touched(e);
    assert Summarises(EMPTY, {});
    ReprocessingIsSilentIff(EMPTY, {}, e, now, later);
  }
}
