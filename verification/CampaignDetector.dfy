/** Campaign detection: grouping sessions by shared signals, and greedy consolidation of
    overlapping groups (src/analysis/campaign_detector.py). */
module CampaignDetector {
  import opened Text
  import opened Ordering

  /** What is known of one session. */
  datatype Meta = Meta(ip: string, subnet: Option<string>, asn: Option<string>, start: Option<real>, end: Option<real>,
                       commands: set<string>, hassh: Option<string>, clientName: Option<string>,
                       seqHash: Option<string>, toolMatch: Option<string>, uaTool: Option<string>)

  type Sessions = map<string, Meta>

  datatype Verdict = Coordinated | SameTool | Coincidence

  // ------------------------------------------------------------------- raw groups

  datatype Kind = BySubnet | ByHassh | BySequence | ByUserAgent | ByAsn

  /** A value that sessions may share, such as one subnet. */
  datatype Clue = Clue(kind: Kind, key: string)

  /** The value of a session in a grouping; empty ones do not count. */
  function KeyOf(kind: Kind, m: Meta): Option<string> {
    var key := match kind
      case BySubnet => m.subnet
      case ByHassh => m.hassh
      case BySequence => m.seqHash
      case ByUserAgent => m.uaTool
      case ByAsn => m.asn;
    if key == Some("") then None else key
  }

  function Threshold(kind: Kind): nat { if kind == ByAsn then 3 else 2 }

  function Members(meta: Sessions, clue: Clue): (sids: set<string>)
    ensures sids <= meta.Keys
  {
    set s | s in meta && KeyOf(clue.kind, meta[s]) == Some(clue.key)
  }

  predicate RawGroup(meta: Sessions, clue: Clue) {
    |Members(meta, clue)| >= Threshold(clue.kind)
  }

  function SetsOf(meta: Sessions, clues: seq<Clue>): set<set<string>> {
    set c | c in clues :: Members(meta, c)
  }

  /** The clues that become campaigns: big enough, and a set of sessions not seen before. */
  function Chosen(meta: Sessions, clues: seq<Clue>): seq<Clue> {
    if clues == [] then []
    else
      var before, last := Chosen(meta, clues[..|clues| - 1]), clues[|clues| - 1];
      if RawGroup(meta, last) && Members(meta, last) !in SetsOf(meta, before) then before + [last] else before
  }

  /** Chosen clues stand for distinct raw groups, and every raw group is that of one of them. */
  lemma {:induction false} ChosenFacts(meta: Sessions, clues: seq<Clue>)
    ensures forall c :: c in Chosen(meta, clues) ==> c in clues && RawGroup(meta, c)
    ensures forall i, j :: 0 <= i < j < |Chosen(meta, clues)| ==>
      Members(meta, Chosen(meta, clues)[i]) != Members(meta, Chosen(meta, clues)[j])
    ensures forall c :: c in clues && RawGroup(meta, c) ==> Members(meta, c) in SetsOf(meta, Chosen(meta, clues))
  {
    hide RawGroup, Members;
    if clues != [] {
      var front, last := clues[..|clues| - 1], clues[|clues| - 1];
      ChosenFacts(meta, front);
      assert clues == front + [last];
      var before := Chosen(meta, front);
      forall i | 0 <= i < |before|
        ensures Members(meta, before[i]) in SetsOf(meta, before)
      {
        assert before[i] in before;
      }
      SetsGrow(meta, before, last);
    }
  }

  lemma SetsGrow(meta: Sessions, clues: seq<Clue>, clue: Clue)
    ensures SetsOf(meta, clues + [clue]) == SetsOf(meta, clues) + {Members(meta, clue)}
  {
  }

  // --------------------------------------------------------- what describes a group

  function IpsOf(meta: Sessions, sids: set<string>): set<string>
    requires sids <= meta.Keys
  {
    set s | s in sids :: meta[s].ip
  }

  /** The commands that every session of the group ran. */
  function Shared(meta: Sessions, sids: set<string>): set<string>
    requires sids <= meta.Keys
  {
    set s, c | s in sids && c in meta[s].commands && (forall t :: t in sids ==> c in meta[t].commands) :: c
  }

  function SubnetsOf(meta: Sessions, sids: set<string>): set<string>
    requires sids <= meta.Keys
  {
    set s | s in sids && meta[s].subnet.Some? && meta[s].subnet.value != "" :: meta[s].subnet.value
  }

  function AsnsOf(meta: Sessions, sids: set<string>): set<string>
    requires sids <= meta.Keys
  {
    set s | s in sids && meta[s].asn.Some? && meta[s].asn.value != "" :: meta[s].asn.value
  }

  ghost predicate IsOnly(x: Option<string>, all: set<string>) {
    if x.Some? then all == {x.value} else |all| != 1
  }

  /** The confidence given to a fresh group; blank commands do not count as shared. */
  function GroupConfidence(meta: Sessions, sids: set<string>): (confidence: real)
    requires sids <= meta.Keys
    ensures IsConfidence(confidence)
  {
    if Shared(meta, sids) - {""} == {} then 0.30
    else if |IpsOf(meta, sids)| >= 3 then 0.85
    else if |IpsOf(meta, sids)| >= 2 then 0.65
    else 0.30
  }

  function FreshVerdict(confidence: real): Verdict {
    if confidence == 0.85 then Coordinated else if confidence == 0.65 then SameTool else Coincidence
  }

  predicate IsConfidence(x: real) { x == 0.30 || x == 0.65 || x == 0.85 }

  /** Verdict and confidence of a merged group, from how many addresses it has, whether all
      its sessions share a command (a blank one counts), whether it carries markers, and how
      sure of it one was. */
  function Judge(addresses: nat, sharing: bool, marked: bool, was: real): (r: (Verdict, real))
    ensures IsConfidence(was) ==> IsConfidence(r.1) && r.1 >= was
  {
    if addresses >= 3 && sharing then (Coordinated, 0.85)
    else if marked || (addresses >= 2 && sharing) then (SameTool, if was < 0.65 then 0.65 else was)
    else (Coincidence, if was < 0.30 then 0.30 else was)
  }

  ghost predicate IsEarliest(meta: Sessions, sids: set<string>, t: Option<real>)
    requires sids <= meta.Keys
  {
    match t
    case None => forall s :: s in sids ==> meta[s].start.None?
    case Some(x) =>
      && (exists s :: s in sids && meta[s].start == t)
      && forall s :: s in sids && meta[s].start.Some? ==> x <= meta[s].start.value
  }

  ghost predicate IsLatest(meta: Sessions, sids: set<string>, t: Option<real>)
    requires sids <= meta.Keys
  {
    match t
    case None => forall s :: s in sids ==> meta[s].end.None?
    case Some(x) =>
      && (exists s :: s in sids && meta[s].end == t)
      && forall s :: s in sids && meta[s].end.Some? ==> x >= meta[s].end.value
  }

  predicate IsMarker(item: string) { "[" <= item }

  /** Every listed command is a signal marker or was run by every session. */
  ghost predicate Justified(meta: Sessions, sids: set<string>, items: seq<string>)
    requires sids <= meta.Keys
  {
    forall i :: 0 <= i < |items| ==> IsMarker(items[i]) || items[i] in Shared(meta, sids)
  }

  ghost predicate Lists(items: seq<string>, all: set<string>) {
    |items| == |all| && forall x :: x in items <==> x in all
  }

  function Upto<T>(s: seq<T>, n: nat): seq<T> { if |s| <= n then s else s[..n] }

  /** The first ten shared commands in order, blank excepted, behind the marker if any. */
  ghost predicate ShowsFresh(items: seq<string>, marker: Option<string>, shared: set<string>) {
    exists sorted :: Ascending(sorted) && Lists(sorted, shared - {""}) &&
      items == (if marker.Some? then [marker.value] else []) + Upto(sorted, 10)
  }

  /** The markers and then the other shared commands in order, ten in all. */
  ghost predicate ShowsMerged(items: seq<string>, markers: seq<string>, shared: set<string>) {
    exists sorted :: Ascending(sorted) && Lists(sorted, shared - {""} - Texts(markers)) &&
      items == Upto(markers + sorted, 10)
  }

  function Texts(s: seq<string>): set<string> { set x | x in s }

  // ------------------------------------------------------------------------ campaigns

  /** The fields of a campaign, its id aside. */
  datatype Snapshot = Snapshot(ips: seq<string>, subnet: Option<string>, asn: Option<string>,
                               start: Option<real>, end: Option<real>,
                               sessionCount: nat, commands: seq<string>, verdict: Verdict, confidence: real)

  /** Addresses, size, time window and listed commands are those of the group `sids`. */
  ghost predicate Fits(meta: Sessions, sids: set<string>, now: Snapshot) {
    && sids <= meta.Keys
    && Lists(now.ips, IpsOf(meta, sids))
    && now.sessionCount == |sids|
    && IsEarliest(meta, sids, now.start) && IsLatest(meta, sids, now.end)
    && Justified(meta, sids, now.commands)
    && IsConfidence(now.confidence)
  }

  /** What `_rebuild_campaign` makes of a group, given its markers and earlier confidence. */
  ghost predicate Rebuilt(meta: Sessions, sids: set<string>, markers: seq<string>, was: real, now: Snapshot)
    requires sids <= meta.Keys
  {
    && Ascending(now.ips) && Lists(now.ips, IpsOf(meta, sids))
    && IsOnly(now.subnet, SubnetsOf(meta, sids)) && IsOnly(now.asn, AsnsOf(meta, sids))
    && IsEarliest(meta, sids, now.start) && IsLatest(meta, sids, now.end)
    && now.sessionCount == |sids|
    && ShowsMerged(now.commands, markers, Shared(meta, sids))
    && (now.verdict, now.confidence) == Judge(|IpsOf(meta, sids)|, Shared(meta, sids) != {}, markers != [], was)
  }

  lemma RebuiltFits(meta: Sessions, sids: set<string>, markers: seq<string>, was: real, now: Snapshot)
    requires sids <= meta.Keys && Rebuilt(meta, sids, markers, was, now)
    requires IsConfidence(was) && forall m :: m in markers ==> IsMarker(m)
    ensures Fits(meta, sids, now) && now.confidence >= was
  {
    hide IsEarliest, IsLatest, IpsOf, Shared, SubnetsOf, AsnsOf, IsMarker;
    var sorted :| Ascending(sorted) && Lists(sorted, Shared(meta, sids) - {""} - Texts(markers)) &&
      now.commands == Upto(markers + sorted, 10);
    forall i | 0 <= i < |now.commands|
      ensures IsMarker(now.commands[i]) || now.commands[i] in Shared(meta, sids)
    {
      assert now.commands[i] == (markers + sorted)[i];
      if i < |markers| { assert now.commands[i] in markers; } else { assert now.commands[i] in sorted; }
    }
  }

  class Campaign {
    var id: nat
    var ips: seq<string>
    var subnet: Option<string>
    var asn: Option<string>
    var start: Option<real>
    var end: Option<real>
    var sessionCount: nat
    var commands: seq<string>
    var verdict: Verdict
    var confidence: real

    function Now(): Snapshot
      reads `ips, `subnet, `asn, `start, `end, `sessionCount, `commands, `verdict, `confidence
    {
      Snapshot(ips, subnet, asn, start, end, sessionCount, commands, verdict, confidence)
    }

    constructor (id: nat, now: Snapshot)
      ensures this.id == id && Now() == now
    {
      this.id, ips, subnet, asn, start, end := id, now.ips, now.subnet, now.asn, now.start, now.end;
      sessionCount, commands, verdict, confidence := now.sessionCount, now.commands, now.verdict, now.confidence;
    }

    /** `_rebuild_campaign`. */
    method Rebuild(meta: Sessions, sids: set<string>, markers: seq<string>)
      requires sids <= meta.Keys
      modifies this
      ensures Rebuilt(meta, sids, markers, old(confidence), Now()) && id == old(id)
    {
      hide IsEarliest, IsLatest, Lists, ShowsMerged, Shared, IpsOf, SubnetsOf, AsnsOf, IsOnly, Ascending;
      var shared, addresses := Shared(meta, sids), IpsOf(meta, sids);
      var listed := SortStrings(addresses);
      var oneSubnet := TheOnly(SubnetsOf(meta, sids));
      var oneAsn := TheOnly(AsnsOf(meta, sids));
      var first := Earliest(meta, sids);
      var last := Latest(meta, sids);
      var items := ListCommands(shared, markers);
      var (judged, sure) := Judge(|addresses|, shared != {}, markers != [], confidence);
      ips, subnet, asn, start, end := listed, oneSubnet, oneAsn, first, last;
      sessionCount, commands, verdict, confidence := |sids|, items, judged, sure;
    }
  }

  method TheOnly(all: set<string>) returns (x: Option<string>)
    ensures IsOnly(x, all)
  {
    x := None;
    if |all| == 1 {
      var y :| y in all;
      assert |all - {y}| == 0 && all == {y} + (all - {y});
      x := Some(y);
    }
  }

  method FreshCommands(shared: set<string>, marker: Option<string>) returns (items: seq<string>)
    ensures ShowsFresh(items, marker, shared)
  {
    hide Less, Ascending, Lists;
    var sorted := SortStrings(shared - {""});
    items := Upto(sorted, 10);
    if marker.Some? { items := [marker.value] + items; }
    assert items == (if marker.Some? then [marker.value] else []) + Upto(sorted, 10);
  }

  method ListCommands(shared: set<string>, markers: seq<string>) returns (items: seq<string>)
    ensures ShowsMerged(items, markers, shared)
  {
    hide Less;
    var sorted := SortStrings(shared - {""});
    var others: seq<string> := [];
    for i := 0 to |sorted|
      invariant Ascending(others)
      invariant forall x :: x in others <==> x in sorted[..i] && x !in markers
    {
      if sorted[i] !in markers {
        forall x | x in others
          ensures Less(x, sorted[i])
        {
          assert x in sorted[..i];
        }
        others := others + [sorted[i]];
      }
      assert sorted[..i + 1] == sorted[..i] + [sorted[i]];
    }
    assert sorted[..|sorted|] == sorted;
    AscendingSize(others, shared - {""} - Texts(markers));
    items := Upto(markers + others, 10);
  }

  /** The distinct markers of a list, in order; an ordinary command beginning with `[` is one. */
  function MarkersIn(items: seq<string>): (markers: seq<string>)
    ensures forall m :: m in markers <==> m in items && IsMarker(m)
  {
    if items == [] then []
    else
      var before, last := MarkersIn(items[..|items| - 1]), items[|items| - 1];
      assert items == items[..|items| - 1] + [last];
      if IsMarker(last) && last !in before then before + [last] else before
  }

  /** Item `i` is the first of its text. */
  predicate IsNew(items: seq<string>, i: nat) {
    i < |items| && items[i] !in items[..i]
  }

  /** The markers stand in the order in which they first appear, each once. */
  lemma {:induction false} MarkersByAppearance(items: seq<string>) returns (at: seq<nat>)
    ensures |at| == |MarkersIn(items)|
    ensures forall k :: 0 <= k < |at| ==> IsNew(items, at[k]) && MarkersIn(items)[k] == items[at[k]]
    ensures forall k, l :: 0 <= k < l < |at| ==> at[k] < at[l]
  {
    if items == [] {
      at := [];
    } else {
      var front, last := items[..|items| - 1], items[|items| - 1];
      at := MarkersByAppearance(front);
      forall k | 0 <= k < |at|
        ensures IsNew(items, at[k]) && items[at[k]] == front[at[k]]
      {
        assert items[..at[k]] == front[..at[k]] && IsNew(front, at[k]);
      }
      if IsMarker(last) && last !in MarkersIn(front) {
        assert last !in front;
        at := at + [|front|];
      }
    }
  }

  method SignalMarkers(items: seq<string>) returns (markers: seq<string>)
    ensures markers == Upto(MarkersIn(items), 5)
  {
    markers := [];
    for i := 0 to |items|
      invariant markers == MarkersIn(items[..i])
    {
      assert items[..i + 1][..i] == items[..i];
      if IsMarker(items[i]) && items[i] !in markers { markers := markers + [items[i]]; }
    }
    assert items[..|items|] == items;
    markers := Upto(markers, 5);
  }

  method SortStrings(all: set<string>) returns (items: seq<string>)
    ensures Lists(items, all) && Ascending(items)
  {
    items := [];
    var todo := all;
    while todo != {}
      invariant todo <= all && Ascending(items) && Lists(items, all - todo)
    {
      var x :| x in todo;
      items := InsertAscending(items, x);
      assert all - (todo - {x}) == (all - todo) + {x};
      todo := todo - {x};
    }
    assert all - {} == all;
  }

  method Earliest(meta: Sessions, sids: set<string>) returns (t: Option<real>)
    requires sids <= meta.Keys
    ensures IsEarliest(meta, sids, t)
  {
    t := None;
    var todo := sids;
    while todo != {}
      invariant todo <= sids && IsEarliest(meta, sids - todo, t)
    {
      var s :| s in todo;
      todo := todo - {s};
      if meta[s].start.Some? && (t.None? || meta[s].start.value < t.value) { t := meta[s].start; }
    }
    assert sids - {} == sids;
  }

  method Latest(meta: Sessions, sids: set<string>) returns (t: Option<real>)
    requires sids <= meta.Keys
    ensures IsLatest(meta, sids, t)
  {
    t := None;
    var todo := sids;
    while todo != {}
      invariant todo <= sids && IsLatest(meta, sids - todo, t)
    {
      var s :| s in todo;
      todo := todo - {s};
      if meta[s].end.Some? && (t.None? || meta[s].end.value > t.value) { t := meta[s].end; }
    }
    assert sids - {} == sids;
  }

  // ---------------------------------------------------------------- ranking campaigns

  predicate StartsNoLater(a: Option<real>, b: Option<real>) {
    a.None? || (b.Some? && a.value <= b.value)
  }

  /** `a` may stand before `b`: more confidence, then more sessions, then (if `timed`) an
      earlier start. */
  predicate Ranked(a: Snapshot, b: Snapshot, timed: bool) {
    || a.confidence > b.confidence
    || (a.confidence == b.confidence &&
        (a.sessionCount > b.sessionCount
         || (a.sessionCount == b.sessionCount && (timed ==> StartsNoLater(a.start, b.start)))))
  }

  lemma RankedFacts(a: Snapshot, b: Snapshot, c: Snapshot, timed: bool)
    ensures Ranked(a, b, timed) || Ranked(b, a, timed)
    ensures Ranked(a, b, timed) && Ranked(b, c, timed) ==> Ranked(a, c, timed)
  {
  }

  predicate NoDuplicates(s: seq<Campaign>) {
    forall i, j :: 0 <= i < j < |s| ==> s[i] != s[j]
  }

  function Elements(s: seq<Campaign>): set<Campaign> { set c | c in s }

  type Views = map<Campaign, Snapshot>

  function View(s: seq<Campaign>): (v: Views)
    reads s`ips, s`subnet, s`asn, s`start, s`end, s`sessionCount, s`commands, s`verdict, s`confidence
    ensures v.Keys == Elements(s)
  {
    map c | c in s :: c.Now()
  }

  ghost predicate InOrder(s: seq<Campaign>, v: Views, timed: bool)
    requires Elements(s) <= v.Keys
  {
    forall i, j :: 0 <= i < j < |s| ==> Ranked(v[s[i]], v[s[j]], timed)
  }

  ghost predicate Before(s: seq<Campaign>, a: Campaign, b: Campaign) {
    exists i, j :: 0 <= i < j < |s| && s[i] == a && s[j] == b
  }

  /** `r` is `items` sorted, and of two items where the first may stand first, it does. */
  ghost predicate StableSort(items: seq<Campaign>, r: seq<Campaign>, v: Views, timed: bool)
    requires Elements(items) <= v.Keys
  {
    && NoDuplicates(r) && |r| == |items| && Elements(r) == Elements(items)
    && InOrder(r, v, timed)
    && forall i, j :: 0 <= i < j < |items| && Ranked(v[items[i]], v[items[j]], timed) ==> Before(r, items[i], items[j])
  }

  lemma BeforeStays(s: seq<Campaign>, k: nat, x: Campaign, a: Campaign, b: Campaign)
    requires k <= |s| && Before(s, a, b)
    ensures Before(s[..k] + [x] + s[k..], a, b)
  {
    var r := s[..k] + [x] + s[k..];
    var i, j :| 0 <= i < j < |s| && s[i] == a && s[j] == b;
    assert r[if i < k then i else i + 1] == a && r[if j < k then j else j + 1] == b;
  }

  method InsertRanked(s: seq<Campaign>, x: Campaign, timed: bool, ghost v: Views)
    returns (r: seq<Campaign>, ghost k: nat)
    requires NoDuplicates(s) && x !in s && Elements(s) <= v.Keys && x in v && InOrder(s, v, timed)
    requires v[x] == x.Now() && forall c :: c in s ==> v[c] == c.Now()
    ensures k <= |s| && r == s[..k] + [x] + s[k..]
    ensures NoDuplicates(r) && Elements(r) == Elements(s) + {x} && InOrder(r, v, timed)
    ensures forall i :: k <= i < |s| ==> !Ranked(v[s[i]], v[x], timed)
  {
    hide Ranked, InOrder;
    var n := 0;
    while n < |s| && Ranked(s[n].Now(), x.Now(), timed)
      invariant 0 <= n <= |s|
      invariant forall i :: 0 <= i < n ==> Ranked(v[s[i]], v[x], timed)
    {
      n := n + 1;
    }
    k := n;
    r := s[..n] + [x] + s[n..];
    assert s == s[..k] + s[k..];
    assert k < |s| ==> !Ranked(v[s[k]], v[x], timed);
    RankedInsertion(s, k, x, v, timed);
  }

  lemma RankedInsertion(s: seq<Campaign>, k: nat, x: Campaign, v: Views, timed: bool)
    requires k <= |s| && Elements(s) <= v.Keys && x in v && InOrder(s, v, timed)
    requires forall i :: 0 <= i < k ==> Ranked(v[s[i]], v[x], timed)
    requires k < |s| ==> !Ranked(v[s[k]], v[x], timed)
    ensures Elements(s[..k] + [x] + s[k..]) <= v.Keys && InOrder(s[..k] + [x] + s[k..], v, timed)
    ensures forall i :: k <= i < |s| ==> !Ranked(v[s[i]], v[x], timed)
  {
    hide Ranked;
    forall i | k <= i < |s|
      ensures Ranked(v[x], v[s[i]], timed) && !Ranked(v[s[i]], v[x], timed)
    {
      RankedFacts(v[x], v[s[k]], v[s[i]], timed);
      RankedFacts(v[s[k]], v[s[i]], v[x], timed);
      assert i > k ==> Ranked(v[s[k]], v[s[i]], timed);
    }
  }

  lemma StableStep(items: seq<Campaign>, n: nat, s: seq<Campaign>, k: nat, v: Views, timed: bool)
    requires NoDuplicates(items) && n < |items| && Elements(items) <= v.Keys && Elements(items[..n]) <= v.Keys
    requires StableSort(items[..n], s, v, timed) && k <= |s|
    requires forall i :: k <= i < |s| ==> s[i] in v && !Ranked(v[s[i]], v[items[n]], timed)
    ensures forall i, j :: 0 <= i < j <= n && Ranked(v[items[i]], v[items[j]], timed) ==>
      Before(s[..k] + [items[n]] + s[k..], items[i], items[j])
  {
    hide Ranked, InOrder;
    var x := items[n];
    var r := s[..k] + [x] + s[k..];
    forall i, j | 0 <= i < j <= n && Ranked(v[items[i]], v[items[j]], timed)
      ensures Before(r, items[i], items[j])
    {
      assert items[..n][i] == items[i];
      if j < n {
        assert items[..n][j] == items[j];
        BeforeStays(s, k, x, items[i], items[j]);
      } else {
        assert items[i] in Elements(items[..n]);
        var p :| 0 <= p < |s| && s[p] == items[i];
        assert r[p] == items[i] && r[k] == x;
      }
    }
  }

  /** Sorting in place of Python's `sorted`, which keeps ties in their order. */
  method SortRanked(items: seq<Campaign>, timed: bool) returns (r: seq<Campaign>)
    requires NoDuplicates(items)
    ensures StableSort(items, r, View(items), timed)
  {
    hide Ranked;
    ghost var v := View(items);
    r := [];
    for i := 0 to |items|
      invariant Elements(items[..i]) <= v.Keys && StableSort(items[..i], r, v, timed)
    {
      assert items[..i + 1] == items[..i] + [items[i]];
      assert Elements(items[..i + 1]) == Elements(items[..i]) + {items[i]};
      assert items[i] !in Elements(items[..i]);
      ghost var s := r;
      ghost var k;
      r, k := InsertRanked(r, items[i], timed, v);
      StableStep(items, i, s, k, v, timed);
    }
    assert items[..|items|] == items;
  }

  // ---------------------------------------------------------- consolidation, on values

  /** Two groups overlap by at least 60% of the smaller one. */
  predicate ShouldMerge(left: set<string>, right: set<string>) {
    && left != {} && right != {} && left * right != {}
    && var smaller := if |left| < |right| then |left| else |right|;
      5 * |left * right| >= 3 * smaller
  }

  predicate AtLeastSixty(part: nat, whole: nat) { part as real >= 0.60 * whole as real }

  /** Two groups that overlap merge when that is 60% of the smaller one. */
  lemma MergesAtSixtyPercent(left: set<string>, right: set<string>)
    ensures ShouldMerge(left, right) <==>
      left * right != {} && AtLeastSixty(|left * right|, if |left| <= |right| then |left| else |right|)
  {
  }

  /** The first group that `sids` should merge with, or the number of groups. */
  function FirstMerge(sids: set<string>, groups: seq<set<string>>): (k: nat)
    ensures k <= |groups| && (k < |groups| ==> ShouldMerge(sids, groups[k]))
    ensures forall i :: 0 <= i < k ==> !ShouldMerge(sids, groups[i])
  {
    if groups == [] then 0
    else
      var k := FirstMerge(sids, groups[..|groups| - 1]);
      if k == |groups| - 1 && !ShouldMerge(sids, groups[k]) then k + 1 else k
  }

  function PlaceSet(groups: seq<set<string>>, sids: set<string>): seq<set<string>> {
    var k := FirstMerge(sids, groups);
    if k < |groups| then groups[k := groups[k] + sids] else groups + [sids]
  }

  function Greedy(sets: seq<set<string>>): seq<set<string>> {
    if sets == [] then [] else PlaceSet(Greedy(sets[..|sets| - 1]), sets[|sets| - 1])
  }

  ghost predicate Apart(sets: seq<set<string>>) {
    forall i, j :: 0 <= i < j < |sets| ==> !ShouldMerge(sets[j], sets[i])
  }

  ghost predicate MergesWithNone(sids: set<string>, groups: seq<set<string>>) {
    forall i :: 0 <= i < |groups| ==> !ShouldMerge(sids, groups[i])
  }

  lemma PlacedApart(groups: seq<set<string>>, sids: set<string>)
    ensures if MergesWithNone(sids, groups) then PlaceSet(groups, sids) == groups + [sids]
      else |PlaceSet(groups, sids)| == |groups|
  {
    hide ShouldMerge;
  }

  lemma ApartStep(groups: seq<set<string>>, sids: set<string>)
    ensures Apart(groups + [sids]) <==> Apart(groups) && MergesWithNone(sids, groups)
  {
    hide ShouldMerge;
    var sets := groups + [sids];
    if Apart(sets) {
      assert sets[|groups|] == sids;
      assert forall i :: 0 <= i < |groups| ==> groups[i] == sets[i];
    }
  }

  /** Consolidation leaves the groups alone exactly when none should merge with an earlier
      one. */
  lemma {:induction false} NothingMergesIff(sets: seq<set<string>>)
    ensures |Greedy(sets)| <= |sets|
    ensures |Greedy(sets)| == |sets| <==> Apart(sets)
    ensures Apart(sets) ==> Greedy(sets) == sets
  {
    hide Greedy, PlaceSet, Apart, MergesWithNone;
    if sets == [] {
      NothingPlaced();
      NoneApart();
    } else {
      var front, last := sets[..|sets| - 1], sets[|sets| - 1];
      assert sets == front + [last];
      NothingMergesIff(front);
      GreedyStep(front, last);
      ApartStep(front, last);
      PlacedApart(Greedy(front), last);
    }
  }

  lemma NoneApart()
    ensures Apart([])
  {
  }

  lemma PlacesAt(groups: seq<set<string>>, sids: set<string>, k: nat)
    requires k <= |groups| && (k < |groups| ==> ShouldMerge(sids, groups[k]))
    requires forall i :: 0 <= i < k ==> !ShouldMerge(sids, groups[i])
    ensures PlaceSet(groups, sids) == if k < |groups| then groups[k := groups[k] + sids] else groups + [sids]
  {
    hide ShouldMerge;
  }

  lemma NothingPlaced()
    ensures Greedy([]) == []
  {
  }

  lemma GreedyStep(front: seq<set<string>>, last: set<string>)
    ensures Greedy(front + [last]) == PlaceSet(Greedy(front), last)
  {
    hide PlaceSet;
    assert (front + [last])[..|front|] == front;
  }

  /** The outcome need not be final: its groups may overlap enough to merge again. */
  lemma OutputsMayStillMerge(a: set<string>, b: set<string>)
    requires a !! b && |a| >= 2 && |b| >= 2
    ensures Greedy([a, b, a + b]) == [a + b, b] && ShouldMerge(b, a + b)
  {
    assert (a + b) * a == a && b * (a + b) == b && b * a == {} && a + (a + b) == a + b;
    Larger(a, a + b);
    Larger(b, a + b);
    assert ShouldMerge(a + b, a) && ShouldMerge(b, a + b) && !ShouldMerge(b, a);
    hide Greedy, PlaceSet, ShouldMerge;
    NothingPlaced();
    GreedyStep([], a);
    PlacesAt([], a, 0);
    assert [] + [a] == [a];
    GreedyStep([a], b);
    PlacesAt([a], b, 1);
    assert [a] + [b] == [a, b];
    GreedyStep([a, b], a + b);
    PlacesAt([a, b], a + b, 0);
    assert [a, b] + [a + b] == [a, b, a + b];
  }

  lemma Larger(a: set<string>, whole: set<string>)
    requires a <= whole
    ensures |a| <= |whole|
  {
    assert whole == a + (whole - a);
  }

  lemma MergingIsMutual(a: set<string>, b: set<string>)
    ensures ShouldMerge(a, b) <==> ShouldMerge(b, a)
  {
    assert a * b == b * a;
  }

  /** Whenever a group absorbs `sets[n]`, it should not then merge with another kept one. */
  ghost predicate Calm(sets: seq<set<string>>) {
    forall n :: 0 <= n < |sets| ==> CalmStep(Greedy(sets[..n]), sets[n])
  }

  ghost predicate CalmStep(groups: seq<set<string>>, sids: set<string>) {
    var k := FirstMerge(sids, groups);
    k < |groups| ==> forall i :: 0 <= i < |groups| && i != k ==> !ShouldMerge(groups[k] + sids, groups[i])
  }

  /** Then the outcome is final. */
  lemma {:induction false} CalmIsFinal(sets: seq<set<string>>)
    requires Calm(sets)
    ensures Apart(Greedy(sets))
  {
    hide PlaceSet, CalmStep, Apart, Greedy;
    if sets == [] {
      NothingPlaced();
      NoneApart();
    } else {
      var front, last := sets[..|sets| - 1], sets[|sets| - 1];
      assert Calm(front) by {
        forall n | 0 <= n < |front| ensures CalmStep(Greedy(front[..n]), front[n]) {
          assert front[..n] == sets[..n] && CalmStep(Greedy(sets[..n]), sets[n]);
        }
      }
      CalmIsFinal(front);
      assert sets == front + [last];
      GreedyStep(front, last);
      CalmPlacement(Greedy(front), last);
    }
  }

  lemma CalmPlacement(groups: seq<set<string>>, sids: set<string>)
    requires Apart(groups) && CalmStep(groups, sids)
    ensures Apart(PlaceSet(groups, sids))
  {
    hide ShouldMerge;
    var k, next := FirstMerge(sids, groups), PlaceSet(groups, sids);
    forall i, j | 0 <= i < j < |next|
      ensures !ShouldMerge(next[j], next[i])
    {
      if k < |groups| { MergingIsMutual(groups[k] + sids, next[j]); }
    }
  }

  /** A campaign's fields and the sessions it holds. */
  datatype Entry = Entry(now: Snapshot, sids: set<string>)

  function Sids(held: seq<Entry>): seq<set<string>> {
    seq(|held|, i requires 0 <= i < |held| => held[i].sids)
  }

  function Surer(a: real, b: real): real { if a < b then b else a }

  /** What becomes of a kept campaign that absorbs another. */
  ghost predicate Absorbed(meta: Sessions, existing: Snapshot, campaign: Snapshot, merged: set<string>, after: Snapshot)
    requires merged <= meta.Keys
  {
    Rebuilt(meta, merged, Upto(MarkersIn(existing.commands + campaign.commands), 5),
      Surer(existing.confidence, campaign.confidence), after)
  }

  /** One round: the first group it should merge with absorbs the campaign, or it is kept. */
  ghost predicate Placed(meta: Sessions, held: seq<Entry>, e: Entry, held': seq<Entry>) {
    var k := FirstMerge(e.sids, Sids(held));
    if k < |held| then
      && |held'| == |held| && held' == held[k := held'[k]]
      && held'[k].sids == held[k].sids + e.sids <= meta.Keys
      && Absorbed(meta, held[k].now, e.now, held'[k].sids, held'[k].now)
    else held' == held + [e]
  }

  /** The campaigns `order`, placed one after another, end up as `held`. */
  ghost predicate Consolidated(meta: Sessions, order: seq<Entry>, held: seq<Entry>) {
    if order == [] then held == []
    else
      var front, last := order[..|order| - 1], order[|order| - 1];
      exists mid :: Consolidated(meta, front, mid) && Placed(meta, mid, last, held)
  }

  lemma {:induction false} ConsolidatedIsGreedy(meta: Sessions, order: seq<Entry>, held: seq<Entry>)
    requires Consolidated(meta, order, held)
    ensures Sids(held) == Greedy(Sids(order))
  {
    hide Placed, PlaceSet, Greedy;
    if order == [] {
      NothingPlaced();
    } else {
      var front, last := order[..|order| - 1], order[|order| - 1];
      var mid :| Consolidated(meta, front, mid) && Placed(meta, mid, last, held);
      ConsolidatedIsGreedy(meta, front, mid);
      PlacedSids(meta, mid, last, held);
      assert Sids(order) == Sids(front) + [last.sids];
      GreedyStep(Sids(front), last.sids);
    }
  }

  lemma PlacedSids(meta: Sessions, held: seq<Entry>, e: Entry, held': seq<Entry>)
    requires Placed(meta, held, e, held')
    ensures Sids(held') == PlaceSet(Sids(held), e.sids)
  {
    hide Absorbed, ShouldMerge;
  }

  ghost predicate AllFit(meta: Sessions, held: seq<Entry>) {
    forall i :: 0 <= i < |held| ==> Fits(meta, held[i].sids, held[i].now)
  }

  /** Some entry holds all of `e`'s sessions and is at least as sure. */
  ghost predicate HeldBy(e: Entry, held: seq<Entry>) {
    exists j :: 0 <= j < |held| && e.sids <= held[j].sids && e.now.confidence <= held[j].now.confidence
  }

  /** Session `s` of `whole` comes from an entry that lies inside `whole`. */
  ghost predicate FromSome(s: string, whole: set<string>, order: seq<Entry>) {
    exists i :: 0 <= i < |order| && s in order[i].sids && order[i].sids <= whole
  }

  lemma PlacedKeeps(meta: Sessions, held: seq<Entry>, e: Entry, held': seq<Entry>)
    requires Placed(meta, held, e, held') && AllFit(meta, held) && Fits(meta, e.sids, e.now)
    ensures AllFit(meta, held') && HeldBy(e, held')
    ensures forall i :: 0 <= i < |held| ==> HeldBy(held[i], held')
    ensures forall j :: 0 <= j < |held'| ==> HomeOf(held, e, held'[j])
  {
    hide Fits, Absorbed, FirstMerge;
    var k := FirstMerge(e.sids, Sids(held));
    if k < |held| {
      AbsorbedFits(meta, held[k], e, held'[k]);
      forall i | 0 <= i < |held|
        ensures HeldBy(held[i], held')
      {
        assert held[i].sids <= held'[i].sids;
      }
    } else {
      forall i | 0 <= i < |held|
        ensures HeldBy(held[i], held')
      {
        assert held'[i] == held[i];
      }
      assert held'[|held|] == e;
    }
  }

  lemma AbsorbedFits(meta: Sessions, existing: Entry, e: Entry, after: Entry)
    requires Fits(meta, existing.sids, existing.now) && Fits(meta, e.sids, e.now) && after.sids <= meta.Keys
    requires Absorbed(meta, existing.now, e.now, after.sids, after.now)
    ensures Fits(meta, after.sids, after.now)
    ensures after.now.confidence >= existing.now.confidence && after.now.confidence >= e.now.confidence
  {
    Confident(meta, existing);
    Confident(meta, e);
    hide Fits, Rebuilt, IsMarker;
    var found := MarkersIn(existing.now.commands + e.now.commands);
    forall m | m in Upto(found, 5)
      ensures IsMarker(m)
    {
      assert m in found;
    }
    RebuiltFits(meta, after.sids, Upto(found, 5), Surer(existing.now.confidence, e.now.confidence), after.now);
  }

  lemma Confident(meta: Sessions, e: Entry)
    requires Fits(meta, e.sids, e.now)
    ensures IsConfidence(e.now.confidence)
  {
  }

  /** After a round, an entry is one kept as it was, the new one, or one that absorbed it. */
  ghost predicate HomeOf(held: seq<Entry>, e: Entry, after: Entry) {
    after in held || after == e || exists i :: 0 <= i < |held| && after.sids == held[i].sids + e.sids
  }

  /** Conservation: every campaign lies inside an output at least as sure, every output is a
      union of campaigns, and its fields are those of its sessions. */
  lemma {:induction false} ConsolidationConserves(meta: Sessions, order: seq<Entry>, held: seq<Entry>)
    requires Consolidated(meta, order, held) && AllFit(meta, order)
    ensures AllFit(meta, held)
    ensures forall i :: 0 <= i < |order| ==> HeldBy(order[i], held)
    ensures forall j, s :: 0 <= j < |held| && s in held[j].sids ==> FromSome(s, held[j].sids, order)
  {
    hide Fits, Placed, HeldBy, FromSome, HomeOf;
    if order != [] {
      var front, last := order[..|order| - 1], order[|order| - 1];
      var mid :| Consolidated(meta, front, mid) && Placed(meta, mid, last, held);
      hide Consolidated;
      ConsolidationConserves(meta, front, mid);
      PlacedKeeps(meta, mid, last, held);
      forall i | 0 <= i < |order|
        ensures HeldBy(order[i], held)
      {
        if i < |front| { StillHeld(front[i], mid, held); }
      }
      forall j, s | 0 <= j < |held| && s in held[j].sids
        ensures FromSome(s, held[j].sids, order)
      {
        StillFromSome(s, mid, front, last, held[j]);
        assert front + [last] == order;
      }
    }
  }

  lemma StillHeld(e: Entry, mid: seq<Entry>, held: seq<Entry>)
    requires HeldBy(e, mid) && forall i :: 0 <= i < |mid| ==> HeldBy(mid[i], held)
    ensures HeldBy(e, held)
  {
    var i :| 0 <= i < |mid| && e.sids <= mid[i].sids && e.now.confidence <= mid[i].now.confidence;
    var j :| 0 <= j < |held| && mid[i].sids <= held[j].sids && mid[i].now.confidence <= held[j].now.confidence;
  }

  lemma StillFromSome(s: string, mid: seq<Entry>, front: seq<Entry>, last: Entry, after: Entry)
    requires HomeOf(mid, last, after) && s in after.sids
    requires forall j, t :: 0 <= j < |mid| && t in mid[j].sids ==> FromSome(t, mid[j].sids, front)
    ensures FromSome(s, after.sids, front + [last])
  {
    var order := front + [last];
    assert order[|front|] == last;
    if s !in last.sids || !(last.sids <= after.sids) {
      var j :| 0 <= j < |mid| && s in mid[j].sids && mid[j].sids <= after.sids;
      var i :| 0 <= i < |front| && s in front[i].sids && front[i].sids <= mid[j].sids;
      assert order[i] == front[i];
    }
  }

  // -------------------------------------------------------- consolidation, in place

  method FindTarget(sids: set<string>, groups: seq<set<string>>) returns (k: nat)
    ensures k == FirstMerge(sids, groups)
  {
    hide ShouldMerge;
    for i := 0 to |groups|
      invariant forall j :: 0 <= j < i ==> !ShouldMerge(sids, groups[j])
    {
      if ShouldMerge(sids, groups[i]) { return i; }
    }
    k := |groups|;
  }

  type Groups = map<Campaign, set<string>>

  ghost predicate Holds(kept: seq<Campaign>, keptSids: seq<set<string>>, held: seq<Entry>)
    reads kept`ips, kept`subnet, kept`asn, kept`start, kept`end, kept`sessionCount, kept`commands, kept`verdict,
      kept`confidence
  {
    && |kept| == |held| && NoDuplicates(kept) && keptSids == Sids(held)
    && forall i :: 0 <= i < |kept| ==> held[i].now == kept[i].Now()
  }

  method AbsorbInto(meta: Sessions, existing: Campaign, campaign: Campaign, merged: set<string>)
    requires existing != campaign && merged <= meta.Keys
    modifies existing
    ensures Absorbed(meta, old(existing.Now()), campaign.Now(), merged, existing.Now())
  {
    hide Rebuilt;
    var markers := SignalMarkers(existing.commands + campaign.commands);
    if existing.confidence < campaign.confidence { existing.confidence := campaign.confidence; }
    existing.Rebuild(meta, merged, markers);
  }

  /** One round of the loop, which keeps `campaign` or changes the kept one that absorbs it. */
  method Place(meta: Sessions, campaign: Campaign, sids: set<string>, kept: seq<Campaign>, keptSids: seq<set<string>>,
               ghost held: seq<Entry>)
    returns (kept': seq<Campaign>, keptSids': seq<set<string>>, ghost held': seq<Entry>)
    requires Holds(kept, keptSids, held) && campaign !in kept
    requires sids <= meta.Keys && forall i :: 0 <= i < |keptSids| ==> keptSids[i] <= meta.Keys
    modifies Elements(kept)
    ensures Holds(kept', keptSids', held') && (kept' == kept || kept' == kept + [campaign])
    ensures Placed(meta, held, Entry(campaign.Now(), sids), held')
    ensures forall i :: 0 <= i < |keptSids'| ==> keptSids'[i] <= meta.Keys
  {
    hide Absorbed, FirstMerge;
    var t := FindTarget(sids, keptSids);
    if t == |kept| {
      kept', keptSids' := kept + [campaign], keptSids + [sids];
      held' := held + [Entry(campaign.Now(), sids)];
    } else {
      assert kept[t] in Elements(kept);
      AbsorbInto(meta, kept[t], campaign, keptSids[t] + sids);
      kept', keptSids' := kept, keptSids[t := keptSids[t] + sids];
      held' := held[t := Entry(kept[t].Now(), keptSids[t] + sids)];
    }
    assert keptSids' == Sids(held');
  }

  /** The campaigns `order` as they stand in `v`, with the sessions of each. */
  ghost function Entries(order: seq<Campaign>, v: Views, groupOf: Groups): seq<Entry>
    requires Elements(order) <= v.Keys && Elements(order) <= groupOf.Keys
  {
    seq(|order|, i requires 0 <= i < |order| =>
      (assert order[i] in Elements(order); Entry(v[order[i]], groupOf[order[i]])))
  }

  method PlaceAll(meta: Sessions, order: seq<Campaign>, groupOf: Groups, ghost v: Views)
    returns (kept: seq<Campaign>, keptSids: seq<set<string>>, ghost held: seq<Entry>)
    requires NoDuplicates(order) && Elements(order) <= groupOf.Keys && Elements(order) <= v.Keys
    requires forall c :: c in order ==> groupOf[c] <= meta.Keys && v[c] == c.Now()
    modifies Elements(order)
    ensures Elements(kept) <= Elements(order) && Holds(kept, keptSids, held)
    ensures Consolidated(meta, Entries(order, v, groupOf), held)
  {
    hide Placed, NoDuplicates;
    kept, keptSids, held := [], [], [];
    ghost var entries := Entries(order, v, groupOf);
    NothingHeld();
    for n := 0 to |order|
      invariant Elements(kept) <= Elements(order[..n]) && Holds(kept, keptSids, held)
      invariant Consolidated(meta, entries[..n], held)
      invariant forall i :: 0 <= i < |keptSids| ==> keptSids[i] <= meta.Keys
      invariant forall k :: n <= k < |order| ==> v[order[k]] == order[k].Now()
    {
      assert Elements(order[..n + 1]) == Elements(order[..n]) + {order[n]};
      NotYet(order, n);
      ghost var mid := held;
      kept, keptSids, held := Place(meta, order[n], groupOf[order[n]], kept, keptSids, held);
      assert entries[..n + 1][..n] == entries[..n];
      assert Placed(meta, mid, entries[n], held);
    }
    assert order[..|order|] == order && entries[..|order|] == entries;
  }

  lemma NothingHeld()
    ensures Holds([], [], []) && NoDuplicates([])
  {
  }

  lemma NotYet(order: seq<Campaign>, n: nat)
    requires NoDuplicates(order) && n < |order|
    ensures forall k :: n <= k < |order| ==> order[k] !in Elements(order[..n])
  {
  }

  method Renumber(result: seq<Campaign>)
    requires NoDuplicates(result)
    modifies (set c | c in result)`id
    ensures forall i :: 0 <= i < |result| ==> result[i].id == i + 1
  {
    for i := 0 to |result|
      invariant forall j :: 0 <= j < i ==> result[j].id == j + 1
    {
      result[i].id := i + 1;
    }
  }

  lemma SortedFacts(items: seq<Campaign>, r: seq<Campaign>, v: Views, timed: bool)
    requires Elements(items) <= v.Keys && StableSort(items, r, v, timed)
    ensures NoDuplicates(r) && Elements(r) == Elements(items) && |r| == |items|
  {
  }

  lemma HeldFacts(kept: seq<Campaign>, keptSids: seq<set<string>>, held: seq<Entry>)
    requires Holds(kept, keptSids, held)
    ensures NoDuplicates(kept) && keptSids == Sids(held)
  {
  }

  /** `_consolidate_campaigns`: the surest and largest campaigns are placed first, and what is
      kept is ranked and numbered. */
  method Consolidate(meta: Sessions, items: seq<Campaign>, groupOf: Groups)
    returns (result: seq<Campaign>, ghost order: seq<Campaign>, ghost kept: seq<Campaign>, ghost held: seq<Entry>)
    requires NoDuplicates(items) && Elements(items) <= groupOf.Keys
    requires forall c :: c in items ==> groupOf[c] <= meta.Keys
    modifies Elements(items)
    ensures StableSort(items, order, old(View(items)), false)
    ensures Consolidated(meta, Entries(order, old(View(items)), groupOf), held)
    ensures Elements(kept) <= Elements(items) && Holds(kept, Sids(held), held)
    ensures StableSort(kept, result, View(kept), true)
    ensures forall i :: 0 <= i < |result| ==> result[i].id == i + 1
  {
    hide InOrder, Consolidated, NoDuplicates, Holds, StableSort, Entries;
    ghost var v := View(items);
    var placing := SortRanked(items, false);
    SortedFacts(items, placing, v, false);
    var keeping, keptSids;
    keeping, keptSids, held := PlaceAll(meta, placing, groupOf, v);
    order, kept := placing, keeping;
    HeldFacts(keeping, keptSids, held);
    result := SortRanked(keeping, true);
    SortedFacts(keeping, result, View(keeping), true);
    Renumber(result);
  }

  // ------------------------------------------------------------------------ detection

  predicate DistinctSids(order: seq<string>) {
    forall i, j :: 0 <= i < j < |order| ==> order[i] != order[j]
  }

  /** The sessions among `order` with the given clue, in order. */
  function InGroup(order: seq<string>, meta: Sessions, clue: Clue): seq<string> {
    if order == [] then []
    else
      var last := order[|order| - 1];
      InGroup(order[..|order| - 1], meta, clue)
      + if last in meta && KeyOf(clue.kind, meta[last]) == Some(clue.key) then [last] else []
  }

  lemma {:induction false} InGroupFacts(order: seq<string>, meta: Sessions, clue: Clue)
    requires DistinctSids(order)
    ensures forall s :: s in InGroup(order, meta, clue) <==>
      s in order && s in meta && KeyOf(clue.kind, meta[s]) == Some(clue.key)
    ensures DistinctSids(InGroup(order, meta, clue))
  {
    if order != [] {
      var front, last := order[..|order| - 1], order[|order| - 1];
      InGroupFacts(front, meta, clue);
      assert order == front + [last] && last !in front;
    }
  }

  lemma {:induction false} DistinctSize(s: seq<string>, all: set<string>)
    requires DistinctSids(s) && forall x :: x in s <==> x in all
    ensures |s| == |all|
  {
    if s == [] {
      assert all == {};
    } else {
      var last := s[|s| - 1];
      assert s == s[..|s| - 1] + [last] && last in s;
      DistinctSize(s[..|s| - 1], all - {last});
    }
  }

  lemma GroupIsMembers(order: seq<string>, meta: Sessions, clue: Clue)
    requires DistinctSids(order) && forall s :: s in order <==> s in meta
    ensures var group := InGroup(order, meta, clue);
      (forall s :: s in group <==> s in Members(meta, clue)) && |group| == |Members(meta, clue)|
  {
    InGroupFacts(order, meta, clue);
    DistinctSize(InGroup(order, meta, clue), Members(meta, clue));
  }

  /** The clues of a kind, by first appearance. */
  function CluesOf(order: seq<string>, meta: Sessions, kind: Kind): (clues: seq<Clue>)
    requires forall s :: s in order ==> s in meta
    ensures forall c :: c in clues <==> c.kind == kind && exists s :: s in order && KeyOf(kind, meta[s]) == Some(c.key)
  {
    if order == [] then []
    else
      var front, last := order[..|order| - 1], order[|order| - 1];
      assert order == front + [last];
      var before, key := CluesOf(front, meta, kind), KeyOf(kind, meta[last]);
      if key.None? || Clue(kind, key.value) in before then before else before + [Clue(kind, key.value)]
  }

  lemma NoClues(meta: Sessions, kind: Kind)
    ensures CluesOf([], meta, kind) == [] && forall clue :: InGroup([], meta, clue) == []
  {
  }

  lemma NextClue(order: seq<string>, i: nat, meta: Sessions, kind: Kind)
    requires i < |order| && forall s :: s in order ==> s in meta
    ensures (
      var key := KeyOf(kind, meta[order[i]]);
      && (forall clue: Clue :: clue.kind == kind ==>
        InGroup(order[..i + 1], meta, clue)
        == InGroup(order[..i], meta, clue) + if key == Some(clue.key) then [order[i]] else [])
      && CluesOf(order[..i + 1], meta, kind) == (
        var before := CluesOf(order[..i], meta, kind);
        if key.None? || Clue(kind, key.value) in before then before else before + [Clue(kind, key.value)]))
  {
    hide KeyOf;
    assert order[..i + 1][..i] == order[..i];
  }

  /** Session `k` of `order` is the first with this clue. */
  predicate Introduces(order: seq<string>, meta: Sessions, k: nat, clue: Clue) {
    && k < |order| && (forall s :: s in order ==> s in meta)
    && KeyOf(clue.kind, meta[order[k]]) == Some(clue.key)
    && forall i :: 0 <= i < k ==> KeyOf(clue.kind, meta[order[i]]) != Some(clue.key)
  }

  /** The clues stand in the order of the first sessions that have them. */
  lemma {:induction false} CluesByAppearance(order: seq<string>, meta: Sessions, kind: Kind) returns (at: seq<nat>)
    requires forall s :: s in order ==> s in meta
    ensures var clues := CluesOf(order, meta, kind);
      && |at| == |clues| && (forall i :: 0 <= i < |at| ==> Introduces(order, meta, at[i], clues[i]))
      && forall i, j :: 0 <= i < j < |at| ==> at[i] < at[j]
  {
    hide KeyOf;
    if order == [] {
      at := [];
    } else {
      var front, last := order[..|order| - 1], order[|order| - 1];
      at := CluesByAppearance(front, meta, kind);
      forall i | 0 <= i < |at|
        ensures Introduces(order, meta, at[i], CluesOf(front, meta, kind)[i])
      {
        assert Introduces(front, meta, at[i], CluesOf(front, meta, kind)[i]);
        assert forall k :: 0 <= k <= at[i] ==> order[k] == front[k];
      }
      var key := KeyOf(kind, meta[last]);
      if key.Some? && Clue(kind, key.value) !in CluesOf(front, meta, kind) {
        forall i | 0 <= i < |front|
          ensures KeyOf(kind, meta[order[i]]) != key
        {
          assert order[i] == front[i] && front[i] in front;
        }
        assert Introduces(order, meta, |front|, Clue(kind, key.value));
        at := at + [|front|];
      }
    }
  }

  /** The grouping loop: the clues that occur, and the sessions of each. */
  method GroupBy(order: seq<string>, meta: Sessions, kind: Kind)
    returns (clues: seq<Clue>, groups: map<Clue, seq<string>>)
    requires forall s :: s in order ==> s in meta
    ensures clues == CluesOf(order, meta, kind)
    ensures forall c :: c in clues ==> c in groups && groups[c] == InGroup(order, meta, c)
  {
    hide KeyOf, InGroup, CluesOf;
    clues, groups := [], map[];
    NoClues(meta, kind);
    for i := 0 to |order|
      invariant clues == CluesOf(order[..i], meta, kind)
      invariant forall c :: c in clues <==> c in groups
      invariant forall c :: c in groups ==> c.kind == kind && groups[c] == InGroup(order[..i], meta, c)
      invariant forall c: Clue :: c.kind == kind && c !in groups ==> InGroup(order[..i], meta, c) == []
    {
      NextClue(order, i, meta, kind);
      var key := KeyOf(kind, meta[order[i]]);
      if key.Some? {
        var clue := Clue(kind, key.value);
        if clue !in groups { clues, groups := clues + [clue], groups[clue := []]; }
        groups := groups[clue := groups[clue] + [order[i]]];
      }
    }
    assert order[..|order|] == order;
  }

  function NameOr(name: Option<string>, otherwise: string): string {
    if name.Some? && name.value != "" then name.value else otherwise
  }

  /** The marker that a grouping puts in front of the shared commands. */
  function Marker(clue: Clue, first: Meta): (m: Option<string>)
    ensures m.Some? ==> IsMarker(m.value)
  {
    var short := Upto(clue.key, 8);
    match clue.kind
    case ByHassh => Some("[HASSH:" + short + "] " + NameOr(first.clientName, "unknown"))
    case BySequence => Some("[SEQ:" + short + "] " + NameOr(first.toolMatch, "seq:" + short))
    case ByUserAgent => Some("[UA] " + clue.key)
    case _ => None
  }

  /** What `_make_campaign` and its callers make of a raw group. */
  ghost predicate Made(meta: Sessions, order: seq<string>, clue: Clue, now: Snapshot) {
    var group, sids := InGroup(order, meta, clue), Members(meta, clue);
    && group != [] && group[0] in meta
    && Fits(meta, sids, now)
    && now.subnet == (if clue.kind == BySubnet then Some(clue.key) else None)
    && now.asn == (if clue.kind == ByAsn then Some(clue.key) else meta[group[0]].asn)
    && now.confidence == GroupConfidence(meta, sids)
    && now.verdict == (if Marker(clue, meta[group[0]]).Some? then SameTool else FreshVerdict(now.confidence))
    && ShowsFresh(now.commands, Marker(clue, meta[group[0]]), Shared(meta, sids))
  }

  lemma ShownIsJustified(meta: Sessions, sids: set<string>, items: seq<string>, marker: Option<string>)
    requires sids <= meta.Keys && ShowsFresh(items, marker, Shared(meta, sids)) &&
      (marker.Some? ==> IsMarker(marker.value))
    ensures Justified(meta, sids, items)
  {
    hide Shared, IsMarker;
    var sorted :| Ascending(sorted) && Lists(sorted, Shared(meta, sids) - {""}) &&
      items == (if marker.Some? then [marker.value] else []) + Upto(sorted, 10);
    forall i | 0 <= i < |items|
      ensures IsMarker(items[i]) || items[i] in Shared(meta, sids)
    {
      if marker.None? || i > 0 {
        assert items[i] == sorted[if marker.Some? then i - 1 else i];
        assert items[i] in sorted;
      }
    }
  }

  method MakeCampaign(meta: Sessions, group: seq<string>, clue: Clue, id: nat, ghost order: seq<string>)
    returns (c: Campaign)
    requires group == InGroup(order, meta, clue) && |group| == |Members(meta, clue)| > 0
    requires forall s :: s in group <==> s in Members(meta, clue)
    ensures fresh(c) && c.id == id && Made(meta, order, clue, c.Now())
  {
    hide IsEarliest, IsLatest, Lists, Justified, GroupConfidence, IpsOf, Shared, Marker, ShowsFresh, InGroup, Members;
    assert group[0] in group;
    var first, sids := meta[group[0]], set s | s in group;
    assert sids == Members(meta, clue);
    var marker := Marker(clue, first);
    var confidence := GroupConfidence(meta, sids);
    var ips := SortStrings(IpsOf(meta, sids));
    var start := Earliest(meta, sids);
    var end := Latest(meta, sids);
    var commands := FreshCommands(Shared(meta, sids), marker);
    ShownIsJustified(meta, sids, commands, marker);
    var verdict := if marker.Some? then SameTool else FreshVerdict(confidence);
    c := new Campaign(id, Snapshot(ips, if clue.kind == BySubnet then Some(clue.key) else None,
                                   if clue.kind == ByAsn then Some(clue.key) else first.asn,
                                   start, end, |group|, commands, verdict, confidence));
  }

  /** The campaigns made from `clues`: one for each chosen clue, in order. */
  ghost predicate Registered(meta: Sessions, order: seq<string>, clues: seq<Clue>, items: seq<Campaign>,
                             groupOf: Groups)
    reads items`id, items`ips, items`subnet, items`asn, items`start, items`end, items`sessionCount, items`commands,
      items`verdict, items`confidence
  {
    var chosen := Chosen(meta, clues);
    && NoDuplicates(items) && Elements(items) == groupOf.Keys && |items| == |chosen|
    && forall i :: 0 <= i < |items| ==>
      && items[i].id == i + 1
      && items[i] in groupOf && groupOf[items[i]] == Members(meta, chosen[i])
      && Made(meta, order, chosen[i], items[i].Now())
  }

  lemma ChosenStep(meta: Sessions, clues: seq<Clue>, clue: Clue)
    ensures Chosen(meta, clues + [clue]) == (
      var before := Chosen(meta, clues);
      if RawGroup(meta, clue) && Members(meta, clue) !in SetsOf(meta, before) then before + [clue] else before)
  {
    assert (clues + [clue])[..|clues|] == clues;
  }

  lemma RegisteredGrows(meta: Sessions, order: seq<string>, clues: seq<Clue>, clue: Clue, items: seq<Campaign>,
                        groupOf: Groups, c: Campaign)
    requires Registered(meta, order, clues, items, groupOf) && c !in items
    requires c.id == |items| + 1 && Made(meta, order, clue, c.Now())
    requires Chosen(meta, clues + [clue]) == Chosen(meta, clues) + [clue]
    ensures Registered(meta, order, clues + [clue], items + [c], groupOf[c := Members(meta, clue)])
  {
    hide Members, Made, Chosen;
    assert Elements(items + [c]) == Elements(items) + {c};
  }

  method AddGroup(meta: Sessions, ghost order: seq<string>, clue: Clue, group: seq<string>, ghost clues: seq<Clue>,
                  items: seq<Campaign>, groupOf: Groups, seen: set<set<string>>)
    returns (items': seq<Campaign>, groupOf': Groups, seen': set<set<string>>)
    requires group == InGroup(order, meta, clue) && |group| == |Members(meta, clue)|
    requires forall s :: s in group <==> s in Members(meta, clue)
    requires Registered(meta, order, clues, items, groupOf) && seen == SetsOf(meta, Chosen(meta, clues))
    ensures Registered(meta, order, clues + [clue], items', groupOf') &&
      seen' == SetsOf(meta, Chosen(meta, clues + [clue]))
    ensures forall c :: c in items' ==> c in items || fresh(c)
  {
    hide Members, Made, InGroup, Chosen, SetsOf;
    items', groupOf', seen' := items, groupOf, seen;
    var sids := set s | s in group;
    assert sids == Members(meta, clue);
    ChosenStep(meta, clues, clue);
    if |group| >= Threshold(clue.kind) && sids !in seen {
      var c := MakeCampaign(meta, group, clue, |items| + 1, order);
      SetsGrow(meta, Chosen(meta, clues), clue);
      RegisteredGrows(meta, order, clues, clue, items, groupOf, c);
      items', groupOf', seen' := items + [c], groupOf[c := sids], seen + {sids};
    }
  }

  /** One clustering pass over the groups of a kind. */
  method AddGroups(meta: Sessions, order: seq<string>, kind: Kind, ghost clues: seq<Clue>,
                   items: seq<Campaign>, groupOf: Groups, seen: set<set<string>>)
    returns (items': seq<Campaign>, groupOf': Groups, seen': set<set<string>>)
    requires DistinctSids(order) && forall s :: s in order <==> s in meta
    requires Registered(meta, order, clues, items, groupOf) && seen == SetsOf(meta, Chosen(meta, clues))
    ensures Registered(meta, order, clues + CluesOf(order, meta, kind), items', groupOf')
    ensures seen' == SetsOf(meta, Chosen(meta, clues + CluesOf(order, meta, kind)))
    ensures forall c :: c in items' ==> c in items || fresh(c)
  {
    hide InGroup, Registered, Members, DistinctSids, CluesOf, Chosen, SetsOf;
    var keys, groups := GroupBy(order, meta, kind);
    items', groupOf', seen' := items, groupOf, seen;
    assert clues + keys[..0] == clues;
    for i := 0 to |keys|
      invariant Registered(meta, order, clues + keys[..i], items', groupOf')
      invariant seen' == SetsOf(meta, Chosen(meta, clues + keys[..i]))
      invariant forall c :: c in items' ==> c in items || fresh(c)
    {
      assert keys[i] in keys;
      GroupIsMembers(order, meta, keys[i]);
      items', groupOf', seen' :=
        AddGroup(meta, order, keys[i], groups[keys[i]], clues + keys[..i], items', groupOf', seen');
      assert clues + keys[..i + 1] == clues + keys[..i] + [keys[i]];
    }
    assert keys[..|keys|] == keys;
  }

  /** All clues, in the order of the five passes. */
  function AllClues(order: seq<string>, meta: Sessions): seq<Clue>
    requires forall s :: s in order ==> s in meta
  {
    CluesOf(order, meta, BySubnet) + CluesOf(order, meta, ByHassh) + CluesOf(order, meta, BySequence)
    + CluesOf(order, meta, ByUserAgent) + CluesOf(order, meta, ByAsn)
  }

  lemma RawGroupsHaveClues(order: seq<string>, meta: Sessions, clue: Clue)
    requires (forall s :: s in order <==> s in meta) && RawGroup(meta, clue)
    ensures clue in AllClues(order, meta)
  {
    assert Members(meta, clue) != {};
    var s :| s in Members(meta, clue);
    assert s in order && KeyOf(clue.kind, meta[s]) == Some(clue.key);
    hide KeyOf;
    assert clue in CluesOf(order, meta, clue.kind);
  }

  method CollectGroups(meta: Sessions, order: seq<string>) returns (items: seq<Campaign>, groupOf: Groups)
    requires DistinctSids(order) && forall s :: s in order <==> s in meta
    ensures Registered(meta, order, AllClues(order, meta), items, groupOf) && forall c :: c in items ==> fresh(c)
  {
    hide CluesOf, Registered, Chosen, SetsOf;
    items, groupOf := [], map[];
    var seen: set<set<string>> := {};
    ghost var clues: seq<Clue> := [];
    NothingRegistered(meta, order);
    items, groupOf, seen := AddGroups(meta, order, BySubnet, clues, items, groupOf, seen);
    clues := clues + CluesOf(order, meta, BySubnet);
    items, groupOf, seen := AddGroups(meta, order, ByHassh, clues, items, groupOf, seen);
    clues := clues + CluesOf(order, meta, ByHassh);
    items, groupOf, seen := AddGroups(meta, order, BySequence, clues, items, groupOf, seen);
    clues := clues + CluesOf(order, meta, BySequence);
    items, groupOf, seen := AddGroups(meta, order, ByUserAgent, clues, items, groupOf, seen);
    clues := clues + CluesOf(order, meta, ByUserAgent);
    items, groupOf, seen := AddGroups(meta, order, ByAsn, clues, items, groupOf, seen);
    assert [] + CluesOf(order, meta, BySubnet) == CluesOf(order, meta, BySubnet);
  }

  lemma NothingRegistered(meta: Sessions, order: seq<string>)
    ensures Registered(meta, order, [], [], map[]) && SetsOf(meta, Chosen(meta, [])) == {}
  {
  }

  /** The group of some output holds `sids`, and the output is at least as sure as `sure`. */
  ghost predicate Held(result: seq<Campaign>, sets: Groups, sids: set<string>, sure: real)
    requires Elements(result) <= sets.Keys
    reads result`confidence
  {
    exists o :: o in result && sids <= sets[o] && o.confidence >= sure
  }

  /** Session `s` of `whole` belongs to a raw group inside `whole`. */
  ghost predicate FromRawGroup(meta: Sessions, s: string, whole: set<string>) {
    exists clue :: RawGroup(meta, clue) && s in Members(meta, clue) && Members(meta, clue) <= whole
  }

  /** `entries` are the campaigns made from the chosen clues, in some order. */
  ghost predicate FromClues(meta: Sessions, order: seq<string>, chosen: seq<Clue>, entries: seq<Entry>) {
    && |entries| == |chosen|
    && (forall i :: 0 <= i < |entries| ==> Fits(meta, entries[i].sids, entries[i].now))
    && (forall i :: 0 <= i < |entries| ==> FromClue(meta, order, chosen, entries[i]))
    && (forall c :: c in chosen ==> Entered(meta, order, c, entries))
  }

  ghost predicate FromClue(meta: Sessions, order: seq<string>, chosen: seq<Clue>, e: Entry) {
    exists c :: c in chosen && e.sids == Members(meta, c) && Made(meta, order, c, e.now)
  }

  ghost predicate Entered(meta: Sessions, order: seq<string>, c: Clue, entries: seq<Entry>) {
    exists i :: 0 <= i < |entries| && entries[i].sids == Members(meta, c) && Made(meta, order, c, entries[i].now)
  }

  ghost predicate IsEntryOf(meta: Sessions, chosen: seq<Clue>, i: nat, e: Entry) {
    i < |chosen| && e.sids == Members(meta, chosen[i])
  }

  /** Of two entries that rank alike, the one whose clue was registered first comes first. */
  ghost predicate TiesKeepOrder(meta: Sessions, chosen: seq<Clue>, entries: seq<Entry>) {
    forall a, b, i, j ::
      (0 <= a < b < |entries| && IsEntryOf(meta, chosen, i, entries[a]) && IsEntryOf(meta, chosen, j, entries[b])
       && Ranked(entries[b].now, entries[a].now, false))
      ==> i < j
  }

  ghost predicate RankedEntries(entries: seq<Entry>) {
    forall i, j :: 0 <= i < j < |entries| ==> Ranked(entries[i].now, entries[j].now, false)
  }

  lemma EveryGroupIsHeld(meta: Sessions, order: seq<string>, clues: seq<Clue>, clue: Clue, entries: seq<Entry>,
                         held: seq<Entry>)
    requires FromClues(meta, order, Chosen(meta, clues), entries) && Consolidated(meta, entries, held)
    requires clue in clues && RawGroup(meta, clue)
    ensures exists j :: (0 <= j < |held| && Members(meta, clue) <= held[j].sids
                         && GroupConfidence(meta, Members(meta, clue)) <= held[j].now.confidence)
  {
    ChosenFacts(meta, clues);
    ConsolidationConserves(meta, entries, held);
    hide Chosen, Members, RawGroup, GroupConfidence, Fits, Consolidated, InGroup, Marker, ShowsFresh;
    var c :| c in Chosen(meta, clues) && Members(meta, c) == Members(meta, clue);
    assert Entered(meta, order, c, entries);
    var i :| 0 <= i < |entries| && entries[i].sids == Members(meta, c) && Made(meta, order, c, entries[i].now);
    assert HeldBy(entries[i], held);
  }

  lemma EveryOutputIsUnion(meta: Sessions, order: seq<string>, clues: seq<Clue>, entries: seq<Entry>,
                           held: seq<Entry>, j: nat, s: string)
    requires FromClues(meta, order, Chosen(meta, clues), entries) && Consolidated(meta, entries, held)
    requires j < |held| && s in held[j].sids
    ensures FromRawGroup(meta, s, held[j].sids)
  {
    hide Chosen, Members, RawGroup, Fits, Consolidated, FromClue, Entered, HeldBy;
    ConsolidationConserves(meta, entries, held);
    assert FromSome(s, held[j].sids, entries);
    hide AllFit, FromClues;
    var i :| 0 <= i < |entries| && s in entries[i].sids && entries[i].sids <= held[j].sids;
    var c := ClueOf(meta, order, clues, entries, i);
  }

  lemma ClueOf(meta: Sessions, order: seq<string>, clues: seq<Clue>, entries: seq<Entry>, i: nat) returns (c: Clue)
    requires FromClues(meta, order, Chosen(meta, clues), entries) && i < |entries|
    ensures c in Chosen(meta, clues) && RawGroup(meta, c)
    ensures entries[i].sids == Members(meta, c) && Made(meta, order, c, entries[i].now)
  {
    ChosenFacts(meta, clues);
    hide Chosen, Members, RawGroup, Fits, Entered, Made;
    assert FromClue(meta, order, Chosen(meta, clues), entries[i]);
    c :| c in Chosen(meta, clues) && entries[i].sids == Members(meta, c) && Made(meta, order, c, entries[i].now);
  }

  /** What `Registered` says, of the campaigns as they stand in `v`. */
  ghost predicate RegisteredAs(meta: Sessions, order: seq<string>, clues: seq<Clue>, items: seq<Campaign>,
                               groupOf: Groups, v: Views) {
    var chosen := Chosen(meta, clues);
    && Elements(items) == groupOf.Keys == v.Keys && |items| == |chosen|
    && forall i :: 0 <= i < |items| ==>
      && items[i] in Elements(items) && groupOf[items[i]] == Members(meta, chosen[i])
      && Made(meta, order, chosen[i], v[items[i]])
  }

  lemma RegisteredNow(meta: Sessions, order: seq<string>, clues: seq<Clue>, items: seq<Campaign>, groupOf: Groups)
    requires Registered(meta, order, clues, items, groupOf)
    ensures NoDuplicates(items) && RegisteredAs(meta, order, clues, items, groupOf, View(items))
  {
    hide Made, Members, Chosen;
  }

  lemma EntryFromClue(meta: Sessions, order: seq<string>, clues: seq<Clue>, items: seq<Campaign>, groupOf: Groups,
                      v: Views, placing: seq<Campaign>, i: nat)
    requires RegisteredAs(meta, order, clues, items, groupOf, v) && Elements(placing) == Elements(items)
    requires i < |placing|
    ensures var e := Entries(placing, v, groupOf)[i];
      FromClue(meta, order, Chosen(meta, clues), e) && Fits(meta, e.sids, e.now)
  {
    hide Members, GroupConfidence, Fits, Chosen, Marker, InGroup, ShowsFresh, Shared;
    var chosen, e := Chosen(meta, clues), Entries(placing, v, groupOf)[i];
    assert placing[i] in Elements(items);
    var k :| 0 <= k < |items| && items[k] == placing[i];
    assert chosen[k] in chosen && Made(meta, order, chosen[k], e.now);
  }

  lemma ClueIsEntered(meta: Sessions, order: seq<string>, clues: seq<Clue>, items: seq<Campaign>, groupOf: Groups,
                      v: Views, placing: seq<Campaign>, c: Clue)
    requires RegisteredAs(meta, order, clues, items, groupOf, v) && Elements(placing) == Elements(items)
    requires c in Chosen(meta, clues)
    ensures Entered(meta, order, c, Entries(placing, v, groupOf))
  {
    hide Members, Chosen, Made;
    var chosen, entries := Chosen(meta, clues), Entries(placing, v, groupOf);
    var k :| 0 <= k < |chosen| && chosen[k] == c;
    assert items[k] in Elements(placing);
    var i :| 0 <= i < |placing| && placing[i] == items[k];
    assert entries[i].sids == Members(meta, c) && Made(meta, order, c, entries[i].now);
  }

  lemma RegisteredEntries(meta: Sessions, order: seq<string>, clues: seq<Clue>, items: seq<Campaign>, groupOf: Groups,
                          v: Views, placing: seq<Campaign>)
    requires RegisteredAs(meta, order, clues, items, groupOf, v) && Elements(placing) == Elements(items) &&
      |placing| == |items|
    ensures FromClues(meta, order, Chosen(meta, clues), Entries(placing, v, groupOf))
  {
    hide Members, Made, Fits, Chosen, FromClue, Entered;
    var chosen, entries := Chosen(meta, clues), Entries(placing, v, groupOf);
    forall i | 0 <= i < |entries|
      ensures Fits(meta, entries[i].sids, entries[i].now) && FromClue(meta, order, chosen, entries[i])
    {
      EntryFromClue(meta, order, clues, items, groupOf, v, placing, i);
    }
    forall c | c in chosen
      ensures Entered(meta, order, c, entries)
    {
      ClueIsEntered(meta, order, clues, items, groupOf, v, placing, c);
    }
  }

  // ------------------------------------------- detection, in the fields of the sessions

  function WithSubnet(meta: Sessions, x: string): set<string> { set s | s in meta && meta[s].subnet == Some(x) }
  function WithHassh(meta: Sessions, x: string): set<string> { set s | s in meta && meta[s].hassh == Some(x) }
  function WithSequence(meta: Sessions, x: string): set<string> { set s | s in meta && meta[s].seqHash == Some(x) }
  function WithTool(meta: Sessions, x: string): set<string> { set s | s in meta && meta[s].uaTool == Some(x) }
  function WithAsn(meta: Sessions, x: string): set<string> { set s | s in meta && meta[s].asn == Some(x) }

  /** `sids` are all sessions with one non-empty subnet, tool fingerprint, script or scanner,
      at least two; or all of one network, at least three. */
  ghost predicate Alike(meta: Sessions, sids: set<string>) {
    || (|sids| >= 2 && (
      || (exists x :: x != "" && sids == WithSubnet(meta, x))
      || (exists x :: x != "" && sids == WithHassh(meta, x))
      || (exists x :: x != "" && sids == WithSequence(meta, x))
      || (exists x :: x != "" && sids == WithTool(meta, x))))
    || (|sids| >= 3 && exists x :: x != "" && sids == WithAsn(meta, x))
  }

  lemma RawGroupIsAlike(meta: Sessions, clue: Clue)
    requires RawGroup(meta, clue)
    ensures Alike(meta, Members(meta, clue))
  {
    var x, sids := clue.key, Members(meta, clue);
    assert x != "" by { var s :| s in sids; }
    match clue.kind
    case BySubnet => assert sids == WithSubnet(meta, x);
    case ByHassh => assert sids == WithHassh(meta, x);
    case BySequence => assert sids == WithSequence(meta, x);
    case ByUserAgent => assert sids == WithTool(meta, x);
    case ByAsn => assert sids == WithAsn(meta, x);
  }

  lemma AlikeIsRawGroup(meta: Sessions, sids: set<string>) returns (clue: Clue)
    requires Alike(meta, sids)
    ensures RawGroup(meta, clue) && Members(meta, clue) == sids
  {
    if |sids| >= 2 && exists x :: x != "" && sids == WithSubnet(meta, x) {
      var x :| x != "" && sids == WithSubnet(meta, x);
      clue := Clue(BySubnet, x);
    } else if |sids| >= 2 && exists x :: x != "" && sids == WithHassh(meta, x) {
      var x :| x != "" && sids == WithHassh(meta, x);
      clue := Clue(ByHassh, x);
    } else if |sids| >= 2 && exists x :: x != "" && sids == WithSequence(meta, x) {
      var x :| x != "" && sids == WithSequence(meta, x);
      clue := Clue(BySequence, x);
    } else if |sids| >= 2 && exists x :: x != "" && sids == WithTool(meta, x) {
      var x :| x != "" && sids == WithTool(meta, x);
      clue := Clue(ByUserAgent, x);
    } else {
      var x :| x != "" && sids == WithAsn(meta, x);
      clue := Clue(ByAsn, x);
    }
    assert Members(meta, clue) == sids;
  }

  /** Every session of the group ran the command. */
  ghost predicate Common(meta: Sessions, sids: set<string>, command: string) {
    sids != {} && forall s :: s in sids ==> s in meta && command in meta[s].commands
  }

  ghost predicate SomeCommon(meta: Sessions, sids: set<string>, blank: bool) {
    exists c :: (blank || c != "") && Common(meta, sids, c)
  }

  lemma SharedIsCommon(meta: Sessions, sids: set<string>)
    requires sids <= meta.Keys
    ensures forall c :: c in Shared(meta, sids) <==> Common(meta, sids, c)
    ensures Shared(meta, sids) != {} <==> SomeCommon(meta, sids, true)
    ensures Shared(meta, sids) - {""} != {} <==> SomeCommon(meta, sids, false)
  {
    forall c
      ensures c in Shared(meta, sids) <==> Common(meta, sids, c)
    {
      if Common(meta, sids, c) { var s :| s in sids; }
    }
    hide Shared, Common;
    if Shared(meta, sids) - {""} != {} { var c :| c in Shared(meta, sids) - {""}; }
    if c :| c != "" && Common(meta, sids, c) { assert c in Shared(meta, sids) - {""}; }
  }

  ghost predicate Tagged(commands: seq<string>) { commands != [] && "[" <= commands[0] }

  /** The first common commands in order, `most` of them, blank ones and those in `besides`
      left aside. */
  ghost predicate ListsFirst(meta: Sessions, sids: set<string>, listed: seq<string>, besides: seq<string>, most: int) {
    && |listed| <= most && Ascending(listed)
    && (forall c :: c in listed ==> c != "" && c !in besides && Common(meta, sids, c))
    && forall c :: c != "" && c !in besides && c !in listed && Common(meta, sids, c) ==>
      |listed| == most && forall d :: d in listed ==> Less(d, c)
  }

  function Head(x: string): string { if |x| <= 8 then x else x[..8] }

  function Named(name: Option<string>, otherwise: string): string {
    if name == None || name == Some("") then otherwise else name.value
  }

  ghost predicate SharesSubnet(meta: Sessions, sids: set<string>) {
    exists x :: x != "" && sids == WithSubnet(meta, x)
  }

  ghost predicate SharesHassh(meta: Sessions, sids: set<string>) {
    exists x :: x != "" && sids == WithHassh(meta, x)
  }

  ghost predicate SharesSequence(meta: Sessions, sids: set<string>) {
    exists x :: x != "" && sids == WithSequence(meta, x)
  }

  ghost predicate SharesTool(meta: Sessions, sids: set<string>) {
    exists x :: x != "" && sids == WithTool(meta, x)
  }

  /** All sessions with one tool fingerprint, else one script, else one scanner `x`, and the
      marker that says so; `first` is what is known of the first of them. */
  ghost predicate FoundByTool(meta: Sessions, sids: set<string>, x: string, first: Meta, marker: string) {
    || (sids == WithHassh(meta, x) && marker == "[HASSH:" + Head(x) + "] " + Named(first.clientName, "unknown"))
    || (sids == WithSequence(meta, x) && !SharesHassh(meta, sids)
        && marker == "[SEQ:" + Head(x) + "] " + Named(first.toolMatch, "seq:" + Head(x)))
    || (sids == WithTool(meta, x) && !SharesHassh(meta, sids) && !SharesSequence(meta, sids) && marker == "[UA] " + x)
  }

  ghost predicate IsFirst(order: seq<string>, sids: set<string>, s: string) {
    exists i :: 0 <= i < |order| && order[i] == s && s in sids && forall j :: 0 <= j < i ==> order[j] !in sids
  }

  /** A group as first found. By its addresses and the commands common to all its sessions it
      is coordinated, shares a tool, or is a coincidence; but one found by its tool shares it,
      and says so in front of its commands. Its network is that of its first session. */
  ghost predicate JudgedFresh(meta: Sessions, order: seq<string>, sids: set<string>, now: Snapshot) {
    var addresses, common := |set s | s in sids && s in meta :: meta[s].ip|, SomeCommon(meta, sids, false);
    && now.confidence == (if addresses >= 3 && common then 0.85 else if addresses >= 2 && common then 0.65 else 0.30)
    && exists s, x :: (s in meta && IsFirst(order, sids, s)
                       && FoundBy(meta, sids, x, meta[s], now, CountVerdict(addresses, common)))
  }

  function CountVerdict(addresses: nat, common: bool): Verdict {
    if addresses >= 3 && common then Coordinated else if addresses >= 2 && common then SameTool else Coincidence
  }

  /** By its subnet if it is that of one, else by its tool, else by its network. */
  ghost predicate FoundBy(meta: Sessions, sids: set<string>, x: string, first: Meta, now: Snapshot, byCount: Verdict) {
    x != "" && (
      || (sids == WithSubnet(meta, x) && ListsFirst(meta, sids, now.commands, [], 10)
          && now.subnet == Some(x) && now.asn == first.asn && now.verdict == byCount)
      || (!SharesSubnet(meta, sids) && now.commands != [] && FoundByTool(meta, sids, x, first, now.commands[0])
          && ListsFirst(meta, sids, now.commands[1..], [], 10)
          && now.subnet == None && now.asn == first.asn && now.verdict == SameTool)
      || (!SharesSubnet(meta, sids) && !SharesHassh(meta, sids) && !SharesSequence(meta, sids)
          && !SharesTool(meta, sids) && sids == WithAsn(meta, x) && ListsFirst(meta, sids, now.commands, [], 10)
          && now.subnet == None && now.asn == Some(x) && now.verdict == byCount))
  }

  /** `x` is the only subnet of the group, sessions without one aside. */
  ghost predicate SoleSubnet(meta: Sessions, sids: set<string>, x: string) {
    && x != "" && (exists s :: s in sids && s in meta && meta[s].subnet == Some(x))
    && forall s :: s in sids && s in meta ==> meta[s].subnet in {None, Some(""), Some(x)}
  }

  ghost predicate SoleAsn(meta: Sessions, sids: set<string>, x: string) {
    && x != "" && (exists s :: s in sids && s in meta && meta[s].asn == Some(x))
    && forall s :: s in sids && s in meta ==> meta[s].asn in {None, Some(""), Some(x)}
  }

  /** A merged group: three addresses with a common command are coordinated; groups with a
      marker, and two addresses with a common command, share a tool. */
  ghost predicate JudgedMerged(meta: Sessions, sids: set<string>, now: Snapshot) {
    ByWeight(meta, sids, now) && (exists n :: LeadByMarkers(meta, sids, now.commands, n))
    && (forall x :: now.subnet == Some(x) <==> SoleSubnet(meta, sids, x))
    && (forall x :: now.asn == Some(x) <==> SoleAsn(meta, sids, x))
  }

  /** Up to five markers, and behind them the first common commands, ten entries in all. */
  ghost predicate LeadByMarkers(meta: Sessions, sids: set<string>, commands: seq<string>, n: nat) {
    && n <= 5 && n <= |commands| && (forall i :: 0 <= i < n ==> "[" <= commands[i])
    && ListsFirst(meta, sids, commands[n..], commands[..n], 10 - n)
  }

  ghost predicate ByWeight(meta: Sessions, sids: set<string>, now: Snapshot) {
    var addresses, common := |set s | s in sids && s in meta :: meta[s].ip|, SomeCommon(meta, sids, true);
    if addresses >= 3 && common then now.verdict == Coordinated && now.confidence == 0.85
    else if addresses >= 2 && common then now.verdict == SameTool && now.confidence >= 0.65
    else if now.verdict == SameTool then Tagged(now.commands) && now.confidence >= 0.65
    else now.verdict == Coincidence && forall c :: c in now.commands ==> Common(meta, sids, c)
  }

  /** The fields of a campaign are those of its sessions. */
  ghost predicate Describes(meta: Sessions, sids: set<string>, now: Snapshot) {
    && |now.ips| == |set s | s in sids && s in meta :: meta[s].ip|
    && (forall ip :: ip in now.ips <==> exists s :: s in sids && s in meta && meta[s].ip == ip)
    && now.sessionCount == |sids|
    && (forall s :: s in sids && s in meta && meta[s].start.Some? ==>
      now.start.Some? && now.start.value <= meta[s].start.value)
    && (now.start.Some? ==> exists s :: s in sids && s in meta && meta[s].start == now.start)
    && (forall s :: s in sids && s in meta && meta[s].end.Some? ==> now.end.Some? && now.end.value >= meta[s].end.value)
    && (now.end.Some? ==> exists s :: s in sids && s in meta && meta[s].end == now.end)
    && (forall c :: c in now.commands ==> "[" <= c || Common(meta, sids, c))
  }

  lemma FitsDescribes(meta: Sessions, sids: set<string>, now: Snapshot)
    requires Fits(meta, sids, now)
    ensures Describes(meta, sids, now)
  {
    SharedIsCommon(meta, sids);
    hide Shared, Common;
    assert IpsOf(meta, sids) == set s | s in sids && s in meta :: meta[s].ip;
    forall c | c in now.commands
      ensures "[" <= c || Common(meta, sids, c)
    {
      var i :| 0 <= i < |now.commands| && now.commands[i] == c;
    }
  }

  lemma ConfidenceIsBySessions(meta: Sessions, sids: set<string>)
    requires sids <= meta.Keys
    ensures var addresses, common := |set s | s in sids && s in meta :: meta[s].ip|, SomeCommon(meta, sids, false);
      GroupConfidence(meta, sids)
      == if addresses >= 3 && common then 0.85 else if addresses >= 2 && common then 0.65 else 0.30
  {
    SharedIsCommon(meta, sids);
    hide Shared, Common, SomeCommon;
    assert IpsOf(meta, sids) == set s | s in sids && s in meta :: meta[s].ip;
  }

  lemma UptoIsFront(sorted: seq<string>, all: set<string>, most: nat)
    requires Ascending(sorted) && Lists(sorted, all)
    ensures var listed := Upto(sorted, most);
      && |listed| <= most && Ascending(listed) && (forall c :: c in listed ==> c in all)
      && forall c :: c in all && c !in listed ==> |listed| == most && forall d :: d in listed ==> Less(d, c)
  {
    hide Less;
    var listed := Upto(sorted, most);
    forall c | c in listed
      ensures c in all
    {
      var i :| 0 <= i < |listed| && listed[i] == c;
      assert sorted[i] == c && c in sorted;
    }
    forall c | c in all && c !in listed
      ensures |listed| == most && forall d :: d in listed ==> Less(d, c)
    {
      assert c in sorted;
      var i :| 0 <= i < |sorted| && sorted[i] == c;
      assert forall k :: 0 <= k < |listed| ==> listed[k] == sorted[k] && listed[k] in listed;
    }
  }

  lemma CommonBesides(meta: Sessions, sids: set<string>, besides: seq<string>, c: string)
    requires sids <= meta.Keys
    ensures c in Shared(meta, sids) - {""} - Texts(besides) <==> c != "" && c !in besides && Common(meta, sids, c)
  {
    SharedIsCommon(meta, sids);
    hide Shared, Common, SomeCommon;
  }

  lemma UptoListsFirst(meta: Sessions, sids: set<string>, sorted: seq<string>, besides: seq<string>, most: nat)
    requires sids <= meta.Keys && Ascending(sorted) && Lists(sorted, Shared(meta, sids) - {""} - Texts(besides))
    ensures ListsFirst(meta, sids, Upto(sorted, most), besides, most)
  {
    var listed, all := Upto(sorted, most), Shared(meta, sids) - {""} - Texts(besides);
    hide Shared, Common, Less, Lists, Ascending, Upto, Texts;
    UptoIsFront(sorted, all, most);
    forall c: string | c in listed
      ensures c != "" && c !in besides && Common(meta, sids, c)
    {
      CommonBesides(meta, sids, besides, c);
    }
    forall c: string | c != "" && c !in besides && c !in listed && Common(meta, sids, c)
      ensures |listed| == most && forall d :: d in listed ==> Less(d, c)
    {
      CommonBesides(meta, sids, besides, c);
    }
  }

  lemma FreshLists(meta: Sessions, sids: set<string>, items: seq<string>, marker: Option<string>)
    requires sids <= meta.Keys && ShowsFresh(items, marker, Shared(meta, sids))
    ensures marker.None? ==> ListsFirst(meta, sids, items, [], 10)
    ensures marker.Some? ==> items != [] && items[0] == marker.value && ListsFirst(meta, sids, items[1..], [], 10)
  {
    hide Ascending, Lists, ListsFirst, Shared;
    var sorted :| Ascending(sorted) && Lists(sorted, Shared(meta, sids) - {""}) &&
      items == (if marker.Some? then [marker.value] else []) + Upto(sorted, 10);
    assert Shared(meta, sids) - {""} - Texts([]) == Shared(meta, sids) - {""};
    UptoListsFirst(meta, sids, sorted, [], 10);
    if marker.Some? {
      assert items[1..] == Upto(sorted, 10);
    } else {
      assert items == Upto(sorted, 10);
    }
  }

  lemma UnfoldMarker(item: string)
    ensures IsMarker(item) <==> "[" <= item
  {
  }

  lemma FirstStays(order: seq<string>, sids: set<string>, s: string)
    requires order != [] && IsFirst(order[..|order| - 1], sids, s)
    ensures IsFirst(order, sids, s)
  {
    var front := order[..|order| - 1];
    var i :| 0 <= i < |front| && front[i] == s && s in sids && forall j :: 0 <= j < i ==> front[j] !in sids;
    assert forall j :: 0 <= j <= i ==> order[j] == front[j];
  }

  lemma LastIsFirst(order: seq<string>, sids: set<string>)
    requires order != [] && order[|order| - 1] in sids
    requires forall s :: s in order[..|order| - 1] ==> s !in sids
    ensures IsFirst(order, sids, order[|order| - 1])
  {
    var front := order[..|order| - 1];
    assert forall j :: 0 <= j < |front| ==> order[j] == front[j] && front[j] in front;
  }

  lemma {:induction false} FirstOfGroup(order: seq<string>, meta: Sessions, clue: Clue)
    requires InGroup(order, meta, clue) != []
    ensures IsFirst(order, Members(meta, clue), InGroup(order, meta, clue)[0])
  {
    hide KeyOf, IsFirst;
    var front, last := order[..|order| - 1], order[|order| - 1];
    if InGroup(front, meta, clue) != [] {
      FirstOfGroup(front, meta, clue);
      FirstStays(order, Members(meta, clue), InGroup(front, meta, clue)[0]);
    } else {
      NoneInGroup(front, meta, clue);
      LastIsFirst(order, Members(meta, clue));
    }
  }

  lemma {:induction false} NoneInGroup(order: seq<string>, meta: Sessions, clue: Clue)
    requires InGroup(order, meta, clue) == []
    ensures forall j :: 0 <= j < |order| ==> order[j] !in Members(meta, clue)
  {
    hide KeyOf;
    if order != [] { NoneInGroup(order[..|order| - 1], meta, clue); }
  }

  /** The order of the five passes. */
  function Pass(kind: Kind): nat {
    match kind case BySubnet => 0 case ByHassh => 1 case BySequence => 2 case ByUserAgent => 3 case ByAsn => 4
  }

  /** No earlier pass found the same group. */
  ghost predicate FoundNow(meta: Sessions, clue: Clue) {
    forall d :: RawGroup(meta, d) && Members(meta, d) == Members(meta, clue) ==> Pass(d.kind) >= Pass(clue.kind)
  }

  lemma {:induction false} ChosenFirst(meta: Sessions, clues: seq<Clue>, c: Clue) returns (i: nat)
    requires c in Chosen(meta, clues)
    ensures i < |clues| && clues[i] == c && RawGroup(meta, c)
    ensures forall j :: 0 <= j < i && RawGroup(meta, clues[j]) ==> Members(meta, clues[j]) != Members(meta, c)
  {
    hide RawGroup, Members;
    var front, last := clues[..|clues| - 1], clues[|clues| - 1];
    if c in Chosen(meta, front) {
      i := ChosenFirst(meta, front, c);
    } else {
      i := |clues| - 1;
      ChosenFacts(meta, front);
      forall j | 0 <= j < i && RawGroup(meta, clues[j])
        ensures Members(meta, clues[j]) != Members(meta, c)
      {
        assert clues[j] == front[j] && front[j] in front;
      }
    }
  }

  /** Clues of the passes up to `n`, pass by pass. */
  ghost predicate InPasses(clues: seq<Clue>, n: nat) {
    && (forall i :: 0 <= i < |clues| ==> Pass(clues[i].kind) <= n)
    && forall i, j :: 0 <= i < j < |clues| ==> Pass(clues[i].kind) <= Pass(clues[j].kind)
  }

  lemma NextPass(order: seq<string>, meta: Sessions, clues: seq<Clue>, kind: Kind)
    requires forall s :: s in order ==> s in meta
    requires Pass(kind) > 0 ==> InPasses(clues, Pass(kind) - 1)
    requires Pass(kind) == 0 ==> clues == []
    ensures InPasses(clues + CluesOf(order, meta, kind), Pass(kind))
  {
    var more := CluesOf(order, meta, kind);
    assert forall i :: 0 <= i < |more| ==> more[i] in more && more[i].kind == kind;
    hide CluesOf, Pass;
  }

  lemma PassesInOrder(order: seq<string>, meta: Sessions)
    requires forall s :: s in order ==> s in meta
    ensures InPasses(AllClues(order, meta), 4)
  {
    hide CluesOf, InPasses;
    NextPass(order, meta, [], BySubnet);
    var clues := CluesOf(order, meta, BySubnet);
    assert [] + clues == clues;
    NextPass(order, meta, clues, ByHassh);
    clues := clues + CluesOf(order, meta, ByHassh);
    NextPass(order, meta, clues, BySequence);
    clues := clues + CluesOf(order, meta, BySequence);
    NextPass(order, meta, clues, ByUserAgent);
    clues := clues + CluesOf(order, meta, ByUserAgent);
    NextPass(order, meta, clues, ByAsn);
  }

  lemma ChosenIsFoundNow(order: seq<string>, meta: Sessions, c: Clue)
    requires (forall s :: s in order <==> s in meta) && c in Chosen(meta, AllClues(order, meta))
    ensures FoundNow(meta, c)
  {
    hide Chosen, AllClues, Pass, RawGroup, Members;
    var clues := AllClues(order, meta);
    var i := ChosenFirst(meta, clues, c);
    PassesInOrder(order, meta);
    forall d | RawGroup(meta, d) && Members(meta, d) == Members(meta, c)
      ensures Pass(d.kind) >= Pass(c.kind)
    {
      RawGroupsHaveClues(order, meta, d);
      var j :| 0 <= j < |clues| && clues[j] == d;
    }
  }

  lemma SharedValueIsClue(meta: Sessions, sids: set<string>, kind: Kind, x: string)
    requires |sids| >= 2 && x != "" && kind != ByAsn
    ensures kind == BySubnet && sids == WithSubnet(meta, x) ==>
      RawGroup(meta, Clue(kind, x)) && Members(meta, Clue(kind, x)) == sids
    ensures kind == ByHassh && sids == WithHassh(meta, x) ==>
      RawGroup(meta, Clue(kind, x)) && Members(meta, Clue(kind, x)) == sids
    ensures kind == BySequence && sids == WithSequence(meta, x) ==>
      RawGroup(meta, Clue(kind, x)) && Members(meta, Clue(kind, x)) == sids
    ensures kind == ByUserAgent && sids == WithTool(meta, x) ==>
      RawGroup(meta, Clue(kind, x)) && Members(meta, Clue(kind, x)) == sids
  {
    assert kind == BySubnet ==> Members(meta, Clue(kind, x)) == WithSubnet(meta, x);
    assert kind == ByHassh ==> Members(meta, Clue(kind, x)) == WithHassh(meta, x);
    assert kind == BySequence ==> Members(meta, Clue(kind, x)) == WithSequence(meta, x);
    assert kind == ByUserAgent ==> Members(meta, Clue(kind, x)) == WithTool(meta, x);
  }

  lemma NothingEarlier(meta: Sessions, clue: Clue)
    requires RawGroup(meta, clue) && FoundNow(meta, clue)
    ensures var sids, pass := Members(meta, clue), Pass(clue.kind);
      && (pass > 0 ==> !SharesSubnet(meta, sids)) && (pass > 1 ==> !SharesHassh(meta, sids))
      && (pass > 2 ==> !SharesSequence(meta, sids)) && (pass > 3 ==> !SharesTool(meta, sids))
  {
    var sids := Members(meta, clue);
    assert |sids| >= 2;
    hide RawGroup, Members, WithSubnet, WithHassh, WithSequence, WithTool;
    if x :| x != "" && sids == WithSubnet(meta, x) { SharedValueIsClue(meta, sids, BySubnet, x); }
    if x :| x != "" && sids == WithHassh(meta, x) { SharedValueIsClue(meta, sids, ByHassh, x); }
    if x :| x != "" && sids == WithSequence(meta, x) { SharedValueIsClue(meta, sids, BySequence, x); }
    if x :| x != "" && sids == WithTool(meta, x) { SharedValueIsClue(meta, sids, ByUserAgent, x); }
  }

  lemma FoundByClue(meta: Sessions, clue: Clue, first: Meta, now: Snapshot, byCount: Verdict)
    requires RawGroup(meta, clue) && FoundNow(meta, clue)
    requires now.subnet == if clue.kind == BySubnet then Some(clue.key) else None
    requires now.asn == if clue.kind == ByAsn then Some(clue.key) else first.asn
    requires now.verdict == if Marker(clue, first).Some? then SameTool else byCount
    requires Marker(clue, first).None? ==> ListsFirst(meta, Members(meta, clue), now.commands, [], 10)
    requires Marker(clue, first).Some? ==>
      && now.commands != [] && now.commands[0] == Marker(clue, first).value
      && ListsFirst(meta, Members(meta, clue), now.commands[1..], [], 10)
    ensures FoundBy(meta, Members(meta, clue), clue.key, first, now, byCount)
  {
    var x, sids := clue.key, Members(meta, clue);
    assert x != "" by { var s :| s in sids; }
    NothingEarlier(meta, clue);
    hide RawGroup, FoundNow, SharesSubnet, SharesHassh, SharesSequence, SharesTool, ListsFirst;
    match clue.kind
    case BySubnet => assert sids == WithSubnet(meta, x);
    case ByHassh => assert sids == WithHassh(meta, x);
    case BySequence => assert sids == WithSequence(meta, x);
    case ByUserAgent => assert sids == WithTool(meta, x);
    case ByAsn => assert sids == WithAsn(meta, x);
  }

  lemma MadeIsJudged(meta: Sessions, order: seq<string>, clue: Clue, now: Snapshot)
    requires RawGroup(meta, clue) && FoundNow(meta, clue) && Made(meta, order, clue, now)
    ensures JudgedFresh(meta, order, Members(meta, clue), now)
  {
    var sids, s := Members(meta, clue), InGroup(order, meta, clue)[0];
    var marker := Marker(clue, meta[s]);
    ConfidenceIsBySessions(meta, sids);
    FreshLists(meta, sids, now.commands, marker);
    FirstOfGroup(order, meta, clue);
    FoundByClue(meta, clue, meta[s], now, FreshVerdict(now.confidence));
    var addresses, common := |set t | t in sids && t in meta :: meta[t].ip|, SomeCommon(meta, sids, false);
    assert FreshVerdict(now.confidence) == CountVerdict(addresses, common);
    hide Shared, Common, SomeCommon, Fits, InGroup, ShowsFresh, GroupConfidence, Members, RawGroup, FoundBy, IsFirst,
      FoundNow, ListsFirst;
  }

  lemma MergedLists(meta: Sessions, sids: set<string>, markers: seq<string>, items: seq<string>)
    requires sids <= meta.Keys && |markers| <= 5 && ShowsMerged(items, markers, Shared(meta, sids))
    requires forall m :: m in markers ==> IsMarker(m)
    ensures |markers| <= |items| && items[..|markers|] == markers && LeadByMarkers(meta, sids, items, |markers|)
  {
    hide Ascending, Lists, ListsFirst, Shared, IsMarker, Texts;
    var n := |markers|;
    var sorted :| Ascending(sorted) && Lists(sorted, Shared(meta, sids) - {""} - Texts(markers)) &&
      items == Upto(markers + sorted, 10);
    UptoListsFirst(meta, sids, sorted, markers, 10 - n);
    assert items[..n] == markers && items[n..] == Upto(sorted, 10 - n);
    forall i | 0 <= i < n
      ensures "[" <= items[i]
    {
      assert items[i] == markers[i] && markers[i] in markers;
      UnfoldMarker(items[i]);
    }
  }

  lemma MergedCommands(meta: Sessions, sids: set<string>, markers: seq<string>, items: seq<string>)
    requires LeadByMarkers(meta, sids, items, |markers|) && |markers| <= |items| && items[..|markers|] == markers
    ensures markers != [] ==> Tagged(items)
    ensures markers == [] ==> forall c :: c in items ==> Common(meta, sids, c)
  {
    hide Common;
    assert items[0..] == items;
  }

  lemma RebuiltIsJudged(meta: Sessions, sids: set<string>, markers: seq<string>, was: real, now: Snapshot)
    requires sids <= meta.Keys && Rebuilt(meta, sids, markers, was, now) && IsConfidence(was)
    requires |markers| <= 5 && forall m :: m in markers ==> IsMarker(m)
    ensures JudgedMerged(meta, sids, now)
  {
    MergedLists(meta, sids, markers, now.commands);
    MergedCommands(meta, sids, markers, now.commands);
    OnlySubnet(meta, sids, now.subnet);
    OnlyAsn(meta, sids, now.asn);
    RebuiltWeighs(meta, sids, markers, was, now);
    hide IsEarliest, IsLatest, IsOnly, Ascending, IpsOf, SubnetsOf, AsnsOf, ShowsMerged, Shared, Lists, SoleSubnet,
      SoleAsn, LeadByMarkers, ByWeight;
  }

  lemma RebuiltWeighs(meta: Sessions, sids: set<string>, markers: seq<string>, was: real, now: Snapshot)
    requires sids <= meta.Keys && Rebuilt(meta, sids, markers, was, now) && IsConfidence(was)
    requires markers != [] ==> Tagged(now.commands)
    requires markers == [] ==> forall c :: c in now.commands ==> Common(meta, sids, c)
    ensures ByWeight(meta, sids, now)
  {
    SharedIsCommon(meta, sids);
    assert IpsOf(meta, sids) == set s | s in sids && s in meta :: meta[s].ip;
    hide Shared, Common, SomeCommon, IsEarliest, IsLatest, IsOnly, Ascending, IpsOf, SubnetsOf, AsnsOf, ShowsMerged,
      Lists, Tagged;
  }

  lemma OneElement(all: set<string>, x: string)
    ensures all == {x} <==> x in all && forall y :: y in all ==> y == x
    ensures all == {x} ==> |all| == 1
    ensures |all| == 1 && x in all ==> all == {x}
  {
    if |all| == 1 && x in all { assert |all - {x}| == 0 && all == (all - {x}) + {x}; }
  }

  lemma OnlySubnet(meta: Sessions, sids: set<string>, only: Option<string>)
    requires sids <= meta.Keys && IsOnly(only, SubnetsOf(meta, sids))
    ensures forall x :: only == Some(x) <==> SoleSubnet(meta, sids, x)
  {
    forall x
      ensures only == Some(x) <==> SoleSubnet(meta, sids, x)
    {
      var all := SubnetsOf(meta, sids);
      OneElement(all, x);
      if s :| s in sids && s in meta && meta[s].subnet == Some(x) && x != "" { assert meta[s].subnet.value in all; }
      if all == {x} {
        assert x in all;
        forall s | s in sids && s in meta
          ensures meta[s].subnet in {None, Some(""), Some(x)}
        {
          assert meta[s].subnet.Some? && meta[s].subnet.value != "" ==> meta[s].subnet.value in all;
        }
      }
    }
  }

  lemma OnlyAsn(meta: Sessions, sids: set<string>, only: Option<string>)
    requires sids <= meta.Keys && IsOnly(only, AsnsOf(meta, sids))
    ensures forall x :: only == Some(x) <==> SoleAsn(meta, sids, x)
  {
    forall x
      ensures only == Some(x) <==> SoleAsn(meta, sids, x)
    {
      var all := AsnsOf(meta, sids);
      OneElement(all, x);
      if s :| s in sids && s in meta && meta[s].asn == Some(x) && x != "" { assert meta[s].asn.value in all; }
      if all == {x} {
        assert x in all;
        forall s | s in sids && s in meta
          ensures meta[s].asn in {None, Some(""), Some(x)}
        {
          assert meta[s].asn.Some? && meta[s].asn.value != "" ==> meta[s].asn.value in all;
        }
      }
    }
  }

  /** Every kept entry is a group as found or a merged one. */
  lemma {:induction false} HeldAreJudged(meta: Sessions, order: seq<Entry>, held: seq<Entry>)
    requires Consolidated(meta, order, held) && AllFit(meta, order)
    ensures forall e :: e in held ==> e in order || JudgedMerged(meta, e.sids, e.now)
  {
    hide Fits, JudgedMerged, Placed, HeldBy, FromSome;
    if order != [] {
      var front, last := order[..|order| - 1], order[|order| - 1];
      var mid :| Consolidated(meta, front, mid) && Placed(meta, mid, last, held);
      hide Consolidated;
      HeldAreJudged(meta, front, mid);
      ConsolidationConserves(meta, front, mid);
      assert order == front + [last];
      PlacedIsJudged(meta, mid, last, held);
    }
  }

  lemma PlacedIsJudged(meta: Sessions, held: seq<Entry>, e: Entry, held': seq<Entry>)
    requires Placed(meta, held, e, held') && AllFit(meta, held) && Fits(meta, e.sids, e.now)
    ensures forall x :: x in held' ==> x in held || x == e || JudgedMerged(meta, x.sids, x.now)
  {
    hide Fits, JudgedMerged, FirstMerge, Rebuilt, IsMarker;
    var k := FirstMerge(e.sids, Sids(held));
    if k < |held| {
      Confident(meta, held[k]);
      Confident(meta, e);
      var found := MarkersIn(held[k].now.commands + e.now.commands);
      forall m | m in Upto(found, 5)
        ensures IsMarker(m)
      {
        assert m in found;
      }
      RebuiltIsJudged(meta, held'[k].sids, Upto(found, 5), Surer(held[k].now.confidence, e.now.confidence),
                      held'[k].now);
    }
  }

  /** An output is a group as it was found, or a merged one. */
  ghost predicate Judged(meta: Sessions, order: seq<string>, e: Entry, entries: seq<Entry>) {
    (e in entries && JudgedFresh(meta, order, e.sids, e.now)) || JudgedMerged(meta, e.sids, e.now)
  }

  lemma OutputsAreJudged(meta: Sessions, order: seq<string>, entries: seq<Entry>, held: seq<Entry>, e: Entry)
    requires forall s :: s in order <==> s in meta
    requires FromClues(meta, order, Chosen(meta, AllClues(order, meta)), entries)
    requires Consolidated(meta, entries, held) && e in held
    ensures Judged(meta, order, e, entries) && Describes(meta, e.sids, e.now)
  {
    hide Fits, Consolidated, Chosen, Describes, HeldBy, FromSome, JudgedFresh, JudgedMerged, Members, Made, RawGroup,
      Entered, FoundNow, AllClues, FromClue;
    ConsolidationConserves(meta, entries, held);
    HeldAreJudged(meta, entries, held);
    FitsDescribes(meta, e.sids, e.now);
    if i: nat :| i < |entries| && entries[i] == e {
      var c := ClueOf(meta, order, AllClues(order, meta), entries, i);
      ChosenIsFoundNow(order, meta, c);
      MadeIsJudged(meta, order, c, e.now);
    }
  }

  /** What the outputs `sets` say of the sessions alone. */
  ghost predicate KeepsTogether(meta: Sessions, outputs: set<set<string>>) {
    && (forall sids :: Alike(meta, sids) ==> exists whole :: whole in outputs && sids <= whole)
    && (forall whole, s :: whole in outputs && s in whole ==>
      exists sids :: Alike(meta, sids) && s in sids && sids <= whole)
  }

  lemma OutputsKeepTogether(meta: Sessions, result: seq<Campaign>, sets: Groups)
    requires Elements(result) == sets.Keys
    requires forall clue :: RawGroup(meta, clue) ==>
      Held(result, sets, Members(meta, clue), GroupConfidence(meta, Members(meta, clue)))
    requires forall o, s :: o in result && s in sets[o] ==> FromRawGroup(meta, s, sets[o])
    ensures KeepsTogether(meta, sets.Values)
  {
    hide Alike, Members, RawGroup, GroupConfidence;
    forall sids | Alike(meta, sids)
      ensures exists whole :: whole in sets.Values && sids <= whole
    {
      var clue := AlikeIsRawGroup(meta, sids);
      var o :| o in result && sids <= sets[o] && o.confidence >= GroupConfidence(meta, sids);
      assert sets[o] in sets.Values;
    }
    forall whole, s | whole in sets.Values && s in whole
      ensures exists sids :: Alike(meta, sids) && s in sids && sids <= whole
    {
      var o :| o in sets && sets[o] == whole;
      assert o in Elements(result);
      var clue :| RawGroup(meta, clue) && s in Members(meta, clue) && Members(meta, clue) <= whole;
      RawGroupIsAlike(meta, clue);
    }
  }

  /** `detect_campaigns`: the campaigns of the distinct raw groups are consolidated, surest
      first; every raw group then lies inside an output at least as sure, every output is a
      union of raw groups, and ids count from one. In the fields of the sessions: those alike
      end in one output, and each output describes and judges its own. */
  method DetectCampaigns(meta: Sessions, order: seq<string>)
    returns (result: seq<Campaign>, ghost sets: Groups, ghost entries: seq<Entry>, ghost held: seq<Entry>)
    requires DistinctSids(order) && forall s :: s in order <==> s in meta
    ensures FromClues(meta, order, Chosen(meta, AllClues(order, meta)), entries) && RankedEntries(entries)
    ensures TiesKeepOrder(meta, Chosen(meta, AllClues(order, meta)), entries)
    ensures Consolidated(meta, entries, held) && |result| == |held|
    ensures NoDuplicates(result) && Elements(result) == sets.Keys
    ensures forall clue :: RawGroup(meta, clue) ==>
      Held(result, sets, Members(meta, clue), GroupConfidence(meta, Members(meta, clue)))
    ensures forall o, s :: o in result && s in sets[o] ==> FromRawGroup(meta, s, sets[o])
    ensures forall o :: o in result ==> Entry(o.Now(), sets[o]) in held && Fits(meta, sets[o], o.Now())
    ensures forall i :: 0 <= i < |result| ==> result[i].id == i + 1
    ensures InOrder(result, View(result), true)
    ensures KeepsTogether(meta, sets.Values)
    ensures forall o :: o in result ==>
      Describes(meta, sets[o], o.Now()) && Judged(meta, order, Entry(o.Now(), sets[o]), entries)
    ensures forall i, j :: 0 <= i < j < |result| ==>
      Foremost(result[i].confidence, result[i].sessionCount, result[i].start,
               result[j].confidence, result[j].sessionCount, result[j].start)
  {
    hide RawGroup, Members, GroupConfidence, Fits, Consolidated, FromClues, Describes, Judged, KeepsTogether,
      Foremost, RegisteredAs, Registered, AllClues, Chosen, Entries, Held, FromRawGroup, InOrder, StableSort,
      Holds, RankedEntries, TiesKeepOrder;
    var items, groupOf := CollectGroups(meta, order);
    ghost var placing, kept;
    ghost var clues, v := AllClues(order, meta), View(items);
    RegisteredNow(meta, order, clues, items, groupOf);
    MembersKnown(meta, order, clues, items, groupOf, v);
    result, placing, kept, held := Consolidate(meta, items, groupOf);
    SortedEntries(items, placing, v, groupOf);
    entries := Entries(placing, v, groupOf);
    RegisteredEntries(meta, order, clues, items, groupOf, v, placing);
    TiesInOrder(meta, order, clues, items, groupOf, v, placing);
    KeptFacts(kept, held, result);
    sets := map j | 0 <= j < |kept| :: kept[j] := held[j].sids;
    OutputFacts(meta, order, entries, kept, held, result, sets);
    OutputsKeepTogether(meta, result, sets);
    forall o | o in result
      ensures Describes(meta, sets[o], o.Now()) && Judged(meta, order, Entry(o.Now(), sets[o]), entries)
    {
      OutputsAreJudged(meta, order, entries, held, Entry(o.Now(), sets[o]));
    }
    ForemostFirst(result);
  }

  /** More confidence first, then more sessions, then the earlier start, none being earliest. */
  predicate Foremost(sure: real, many: nat, start: Option<real>, sure': real, many': nat, start': Option<real>) {
    || sure > sure'
    || (sure == sure' && many > many')
    || (sure == sure' && many == many' && (start.None? || (start'.Some? && start.value <= start'.value)))
  }

  lemma ForemostFirst(result: seq<Campaign>)
    requires InOrder(result, View(result), true)
    ensures forall i, j :: 0 <= i < j < |result| ==>
      Foremost(result[i].confidence, result[i].sessionCount, result[i].start,
               result[j].confidence, result[j].sessionCount, result[j].start)
  {
    forall i, j | 0 <= i < j < |result|
      ensures Foremost(result[i].confidence, result[i].sessionCount, result[i].start,
                       result[j].confidence, result[j].sessionCount, result[j].start)
    {
      assert Ranked(result[i].Now(), result[j].Now(), true);
    }
  }

  lemma TiesInOrder(meta: Sessions, order: seq<string>, clues: seq<Clue>, items: seq<Campaign>, groupOf: Groups,
                    v: Views, placing: seq<Campaign>)
    requires RegisteredAs(meta, order, clues, items, groupOf, v) && Elements(items) <= v.Keys
    requires StableSort(items, placing, v, false)
    ensures Elements(placing) <= v.Keys && Elements(placing) <= groupOf.Keys
    ensures TiesKeepOrder(meta, Chosen(meta, clues), Entries(placing, v, groupOf))
  {
    hide Made, Members, Ranked, Chosen, InOrder, Before, NoDuplicates;
    var chosen, entries := Chosen(meta, clues), Entries(placing, v, groupOf);
    forall a, b, i, j |
      (0 <= a < b < |entries| && IsEntryOf(meta, chosen, i, entries[a]) && IsEntryOf(meta, chosen, j, entries[b])
       && Ranked(entries[b].now, entries[a].now, false))
      ensures i < j
    {
      RegisteredIndex(meta, order, clues, items, groupOf, v, placing, a, i);
      RegisteredIndex(meta, order, clues, items, groupOf, v, placing, b, j);
      TieInOrder(items, placing, v, a, b, i, j);
    }
  }

  lemma TieInOrder(items: seq<Campaign>, placing: seq<Campaign>, v: Views, a: nat, b: nat, i: nat, j: nat)
    requires Elements(items) <= v.Keys && StableSort(items, placing, v, false)
    requires a < b < |placing| && i < |items| && j < |items| && items[i] == placing[a] && items[j] == placing[b]
    requires items[i] in v && items[j] in v && Ranked(v[items[j]], v[items[i]], false)
    ensures i < j
  {
    hide Ranked, StableSort;
    if j <= i { EarlierStaysBefore(items, placing, v, j, i); }
  }

  lemma EarlierStaysBefore(items: seq<Campaign>, placing: seq<Campaign>, v: Views, j: nat, i: nat)
    requires Elements(items) <= v.Keys && StableSort(items, placing, v, false) && j <= i < |items|
    requires items[i] in v && items[j] in v && Ranked(v[items[j]], v[items[i]], false)
    ensures NoDuplicates(placing) && (j < i ==> Before(placing, items[j], items[i]))
  {
    hide Ranked, InOrder;
  }

  lemma RegisteredIndex(meta: Sessions, order: seq<string>, clues: seq<Clue>, items: seq<Campaign>, groupOf: Groups,
                        v: Views, placing: seq<Campaign>, a: nat, i: nat)
    requires RegisteredAs(meta, order, clues, items, groupOf, v) && Elements(placing) == Elements(items)
    requires a < |placing| && placing[a] in groupOf && i < |Chosen(meta, clues)|
    requires groupOf[placing[a]] == Members(meta, Chosen(meta, clues)[i])
    ensures i < |items| && items[i] == placing[a]
  {
    hide Made, Members, Chosen;
    ChosenFacts(meta, clues);
    assert placing[a] in Elements(items);
    var k :| 0 <= k < |items| && items[k] == placing[a];
    assert Members(meta, Chosen(meta, clues)[k]) == Members(meta, Chosen(meta, clues)[i]);
  }

  lemma SortedEntries(items: seq<Campaign>, placing: seq<Campaign>, v: Views, groupOf: Groups)
    requires Elements(items) <= v.Keys && Elements(items) <= groupOf.Keys && StableSort(items, placing, v, false)
    ensures Elements(placing) == Elements(items) && |placing| == |items|
    ensures RankedEntries(Entries(placing, v, groupOf))
  {
    hide Ranked;
  }

  lemma KeptFacts(kept: seq<Campaign>, held: seq<Entry>, result: seq<Campaign>)
    requires Holds(kept, Sids(held), held) && StableSort(kept, result, View(kept), true)
    ensures |kept| == |held| == |result| && NoDuplicates(kept)
    ensures NoDuplicates(result) && Elements(result) == Elements(kept) && InOrder(result, View(result), true)
  {
    hide Ranked;
    assert View(result) == View(kept);
  }

  lemma MembersKnown(meta: Sessions, order: seq<string>, clues: seq<Clue>, items: seq<Campaign>, groupOf: Groups,
                     v: Views)
    requires RegisteredAs(meta, order, clues, items, groupOf, v)
    ensures forall c :: c in items ==> c in groupOf && groupOf[c] <= meta.Keys
  {
    hide Made, Chosen, Members;
    forall c | c in items
      ensures c in groupOf && groupOf[c] <= meta.Keys
    {
      var i :| 0 <= i < |items| && items[i] == c;
    }
  }

  lemma OutputFacts(meta: Sessions, order: seq<string>, entries: seq<Entry>, kept: seq<Campaign>, held: seq<Entry>,
                    result: seq<Campaign>, sets: Groups)
    requires (forall s :: s in order <==> s in meta) &&
      FromClues(meta, order, Chosen(meta, AllClues(order, meta)), entries)
    requires Consolidated(meta, entries, held) && Holds(kept, Sids(held), held)
    requires Elements(result) == Elements(kept) == sets.Keys
    requires forall j :: 0 <= j < |kept| ==> kept[j] in sets && sets[kept[j]] == held[j].sids
    ensures forall clue :: RawGroup(meta, clue) ==>
      Held(result, sets, Members(meta, clue), GroupConfidence(meta, Members(meta, clue)))
    ensures forall o, s :: o in result && s in sets[o] ==> FromRawGroup(meta, s, sets[o])
    ensures forall o :: o in result ==> Entry(o.Now(), sets[o]) in held && Fits(meta, sets[o], o.Now())
  {
    hide RawGroup, Members, GroupConfidence, Fits, Consolidated, Chosen, AllClues, FromRawGroup, Entered;
    var clues := AllClues(order, meta);
    ConsolidationConserves(meta, entries, held);
    forall clue | RawGroup(meta, clue)
      ensures Held(result, sets, Members(meta, clue), GroupConfidence(meta, Members(meta, clue)))
    {
      RawGroupsHaveClues(order, meta, clue);
      EveryGroupIsHeld(meta, order, clues, clue, entries, held);
      var j :| 0 <= j < |held| && Members(meta, clue) <= held[j].sids &&
        GroupConfidence(meta, Members(meta, clue)) <= held[j].now.confidence;
      assert kept[j] in Elements(result);
    }
    forall o | o in result
      ensures Entry(o.Now(), sets[o]) in held && Fits(meta, sets[o], o.Now())
      ensures forall s :: s in sets[o] ==> FromRawGroup(meta, s, sets[o])
    {
      assert o in Elements(kept);
      var j :| 0 <= j < |kept| && kept[j] == o;
      assert held[j] == Entry(o.Now(), sets[o]);
      forall s | s in sets[o]
        ensures FromRawGroup(meta, s, sets[o])
      {
        EveryOutputIsUnion(meta, order, clues, entries, held, j, s);
      }
    }
  }

  // ------------------------------------------------- an outcome that should still merge

  /** Two subnets that share one tool and nothing else; each runs its own commands from
      several addresses. */
  ghost predicate Rivals(meta: Sessions, a: set<string>, b: set<string>, x: string, y: string, tool: string) {
    && a !! b && |a| >= 2 && |b| >= 2 && meta.Keys == a + b
    && x != "" && y != "" && x != y && tool != ""
    && (forall s :: s in a ==> meta[s].subnet == Some(x)) && (forall s :: s in b ==> meta[s].subnet == Some(y))
    && (forall s :: s in meta ==>
      meta[s].hassh == Some(tool) && meta[s].seqHash.None? && meta[s].uaTool.None? && meta[s].asn.None?)
    && GroupConfidence(meta, a) >= 0.65 && GroupConfidence(meta, b) >= 0.65 && GroupConfidence(meta, a + b) == 0.30
  }

  lemma ClueIff(order: seq<string>, meta: Sessions, c: Clue)
    requires forall s :: s in order <==> s in meta
    ensures c in AllClues(order, meta) <==> exists s :: s in meta && KeyOf(c.kind, meta[s]) == Some(c.key)
  {
    hide KeyOf;
    match c.kind
    case BySubnet => assert c in AllClues(order, meta) <==> c in CluesOf(order, meta, BySubnet);
    case ByHassh => assert c in AllClues(order, meta) <==> c in CluesOf(order, meta, ByHassh);
    case BySequence => assert c in AllClues(order, meta) <==> c in CluesOf(order, meta, BySequence);
    case ByUserAgent => assert c in AllClues(order, meta) <==> c in CluesOf(order, meta, ByUserAgent);
    case ByAsn => assert c in AllClues(order, meta) <==> c in CluesOf(order, meta, ByAsn);
  }

  lemma RivalMembers(meta: Sessions, a: set<string>, b: set<string>, x: string, y: string, tool: string)
    requires Rivals(meta, a, b, x, y, tool)
    ensures Members(meta, Clue(BySubnet, x)) == a && Members(meta, Clue(BySubnet, y)) == b &&
      Members(meta, Clue(ByHassh, tool)) == a + b
    ensures |a + b| >= 2
  {
    hide GroupConfidence;
    Larger(a, a + b);
  }

  lemma RivalClues(meta: Sessions, order: seq<string>, a: set<string>, b: set<string>, x: string, y: string,
                   tool: string, c: Clue)
    requires Rivals(meta, a, b, x, y, tool) && forall s :: s in order <==> s in meta
    ensures c in AllClues(order, meta) <==> c == Clue(BySubnet, x) || c == Clue(BySubnet, y) || c == Clue(ByHassh, tool)
  {
    hide GroupConfidence, AllClues;
    ClueIff(order, meta, c);
    var s :| s in a;
    var t :| t in b;
    assert KeyOf(BySubnet, meta[s]) == Some(x) && KeyOf(BySubnet, meta[t]) == Some(y) &&
      KeyOf(ByHassh, meta[s]) == Some(tool);
  }

  lemma {:induction false} ClueCount(clues: seq<Clue>, all: set<Clue>)
    requires forall i, j :: 0 <= i < j < |clues| ==> clues[i] != clues[j]
    requires forall c :: c in clues <==> c in all
    ensures |clues| == |all|
  {
    if clues == [] {
      assert all == {};
    } else {
      var last := clues[|clues| - 1];
      assert clues == clues[..|clues| - 1] + [last] && last in clues;
      ClueCount(clues[..|clues| - 1], all - {last});
    }
  }

  lemma OnlyClueIsChosen(meta: Sessions, clues: seq<Clue>, c: Clue)
    requires c in clues && RawGroup(meta, c)
    requires forall d :: d in clues && Members(meta, d) == Members(meta, c) ==> d == c
    ensures c in Chosen(meta, clues)
  {
    ChosenFacts(meta, clues);
    hide Chosen, Members, RawGroup;
    var d :| d in Chosen(meta, clues) && Members(meta, d) == Members(meta, c);
  }

  lemma RivalGroups(meta: Sessions, a: set<string>, b: set<string>, x: string, y: string, tool: string)
    requires Rivals(meta, a, b, x, y, tool)
    ensures x != y && a != b && a != a + b && b != a + b
    ensures RawGroup(meta, Clue(BySubnet, x)) && RawGroup(meta, Clue(BySubnet, y)) &&
      RawGroup(meta, Clue(ByHassh, tool))
    ensures GroupConfidence(meta, a) > GroupConfidence(meta, a + b) &&
      GroupConfidence(meta, b) > GroupConfidence(meta, a + b)
  {
    RivalMembers(meta, a, b, x, y, tool);
    hide GroupConfidence, Members;
    var s :| s in a;
    var t :| t in b;
    assert s !in b && t !in a;
  }

  lemma RivalsChosen(meta: Sessions, order: seq<string>, a: set<string>, b: set<string>, x: string, y: string,
                     tool: string)
    requires Rivals(meta, a, b, x, y, tool) && forall s :: s in order <==> s in meta
    ensures var chosen := Chosen(meta, AllClues(order, meta));
      |chosen| == 3 && x != y && Clue(BySubnet, x) in chosen && Clue(BySubnet, y) in chosen &&
        Clue(ByHassh, tool) in chosen
  {
    hide Rivals, AllClues, Chosen, Members, RawGroup;
    var clues, chosen := AllClues(order, meta), Chosen(meta, AllClues(order, meta));
    var p, q, r := Clue(BySubnet, x), Clue(BySubnet, y), Clue(ByHassh, tool);
    RivalMembers(meta, a, b, x, y, tool);
    RivalGroups(meta, a, b, x, y, tool);
    forall c ensures c in clues <==> c == p || c == q || c == r {
      RivalClues(meta, order, a, b, x, y, tool, c);
    }
    OnlyClueIsChosen(meta, clues, p);
    OnlyClueIsChosen(meta, clues, q);
    OnlyClueIsChosen(meta, clues, r);
    ChosenFacts(meta, clues);
    ClueCount(chosen, {p, q, r});
  }

  lemma EntryOf(meta: Sessions, order: seq<string>, chosen: seq<Clue>, c: Clue, entries: seq<Entry>) returns (i: nat)
    requires FromClues(meta, order, chosen, entries) && c in chosen
    ensures i < |entries| == |chosen| && entries[i] == Entry(entries[i].now, Members(meta, c))
    ensures entries[i].now.confidence == GroupConfidence(meta, Members(meta, c))
  {
    hide Members, GroupConfidence, Fits, InGroup, Marker, ShowsFresh, Shared;
    assert Entered(meta, order, c, entries);
    i :| 0 <= i < |entries| && entries[i].sids == Members(meta, c) && Made(meta, order, c, entries[i].now);
  }

  lemma SurerFirst(entries: seq<Entry>, i: nat, k: nat)
    requires RankedEntries(entries) && i < |entries| && k < |entries|
    requires entries[i].now.confidence > entries[k].now.confidence
    ensures i < k
  {
  }

  /** The surer two are placed before the third. */
  lemma RivalsInOrder(meta: Sessions, order: seq<string>, a: set<string>, b: set<string>, x: string, y: string,
                      tool: string, entries: seq<Entry>)
    requires Rivals(meta, a, b, x, y, tool) && forall s :: s in order <==> s in meta
    requires FromClues(meta, order, Chosen(meta, AllClues(order, meta)), entries) && RankedEntries(entries)
    ensures Sids(entries) == [a, b, a + b] || Sids(entries) == [b, a, a + b]
  {
    hide Chosen, AllClues, Members, GroupConfidence, RawGroup, FromClues, RankedEntries, Rivals;
    var chosen := Chosen(meta, AllClues(order, meta));
    RivalsChosen(meta, order, a, b, x, y, tool);
    RivalMembers(meta, a, b, x, y, tool);
    RivalGroups(meta, a, b, x, y, tool);
    var i := EntryOf(meta, order, chosen, Clue(BySubnet, x), entries);
    var j := EntryOf(meta, order, chosen, Clue(BySubnet, y), entries);
    var k := EntryOf(meta, order, chosen, Clue(ByHassh, tool), entries);
    SurerFirst(entries, i, k);
    SurerFirst(entries, j, k);
    assert i != j && k == 2 && |entries| == 3;
    assert Sids(entries)[i] == a && Sids(entries)[j] == b && Sids(entries)[k] == a + b;
  }

  /** Detection leaves two campaigns whose groups should merge. */
  lemma RivalsShouldStillMerge(meta: Sessions, order: seq<string>, a: set<string>, b: set<string>, x: string,
                               y: string, tool: string,
                               entries: seq<Entry>, held: seq<Entry>)
    requires Rivals(meta, a, b, x, y, tool) && forall s :: s in order <==> s in meta
    requires FromClues(meta, order, Chosen(meta, AllClues(order, meta)), entries) && RankedEntries(entries) &&
      Consolidated(meta, entries, held)
    ensures |held| == 2 && !Apart(Sids(held))
  {
    hide Greedy, ShouldMerge, FromClues, Consolidated, Chosen, AllClues, RankedEntries, GroupConfidence, Sids;
    RivalsInOrder(meta, order, a, b, x, y, tool, entries);
    ConsolidatedIsGreedy(meta, entries, held);
    assert |Sids(held)| == |held| by { SidsSize(held); }
    OutputsMayStillMerge(a, b);
    OutputsMayStillMerge(b, a);
    assert a + b == b + a;
    hide Rivals;
    NotApart(Sids(held), a + b);
  }

  lemma SidsSize(held: seq<Entry>)
    ensures |Sids(held)| == |held|
  {
  }

  lemma NotApart(sets: seq<set<string>>, whole: set<string>)
    requires |sets| == 2 && sets[0] == whole && ShouldMerge(sets[1], whole)
    ensures !Apart(sets)
  {
    hide ShouldMerge;
  }

  function Visit(ip: string, subnet: string, command: string): Meta {
    Meta(ip, Some(subnet), None, None, None, {command}, Some("tool"), None, None, None, None)
  }

  /** Two sessions that run command `c` from different addresses of one subnet. */
  predicate Pair(meta: Sessions, s: string, t: string, x: string, c: string) {
    && s in meta && t in meta && s != t && meta[s].ip != meta[t].ip && c != "" && x != ""
    && meta[s] == Visit(meta[s].ip, x, c) && meta[t] == Visit(meta[t].ip, x, c)
  }

  /** Two such pairs, using the same tool, are rivals. */
  lemma PairsAreRivals(meta: Sessions, s: string, t: string, u: string, v: string, x: string, y: string, c: string,
                       d: string)
    requires Pair(meta, s, t, x, c) && Pair(meta, u, v, y, d) && x != y && c != d
    requires {s, t} !! {u, v} && meta.Keys == {s, t} + {u, v}
    ensures Rivals(meta, {s, t}, {u, v}, x, y, "tool")
  {
    hide *;
    PairFacts(meta, s, t, x, c, {s, t});
    PairFacts(meta, u, v, y, d, {u, v});
    assert s in {s, t} && u in {u, v};
    TeamsAreRivals(meta, {s, t}, {u, v}, x, y, c, d, s, u);
  }

  /** A group whose sessions all come from subnet `x` and run `c`, as likely as a pair. */
  ghost predicate Team(meta: Sessions, a: set<string>, x: string, c: string) {
    && |a| >= 2 && x != "" && a <= meta.Keys && GroupConfidence(meta, a) >= 0.65
    && forall r :: r in a ==>
      && meta[r].subnet == Some(x) && meta[r].hassh == Some("tool") && meta[r].commands == {c}
      && meta[r].seqHash.None? && meta[r].uaTool.None? && meta[r].asn.None?
  }

  lemma TeamsAreRivals(meta: Sessions, a: set<string>, b: set<string>, x: string, y: string, c: string, d: string,
                       s: string, u: string)
    requires Team(meta, a, x, c) && Team(meta, b, y, d) && x != y && c != d && a !! b && meta.Keys == a + b
    requires s in a && u in b
    ensures Rivals(meta, a, b, x, y, "tool")
  {
    hide GroupConfidence;
    NothingShared(meta, a + b, s, u);
  }

  lemma PairFacts(meta: Sessions, s: string, t: string, x: string, c: string, a: set<string>)
    requires Pair(meta, s, t, x, c) && a == {s, t}
    ensures Team(meta, a, x, c)
  {
    PairConfidence(meta, s, t, c);
    hide GroupConfidence;
  }

  function TwoPairs(s: string, t: string, u: string, v: string, ips: seq<string>, x: string, y: string, c: string,
                    d: string): Sessions
    requires |ips| == 4
  {
    map[s := Visit(ips[0], x, c), t := Visit(ips[1], x, c), u := Visit(ips[2], y, d), v := Visit(ips[3], y, d)]
  }

  lemma TwoPairsAreRivals(s: string, t: string, u: string, v: string, ips: seq<string>, x: string, y: string,
                          c: string, d: string)
    requires s != t && s != u && s != v && t != u && t != v && u != v
    requires |ips| == 4 && ips[0] != ips[1] && ips[2] != ips[3] && x != y && c != d
    requires x != "" && y != "" && c != "" && d != ""
    ensures Rivals(TwoPairs(s, t, u, v, ips, x, y, c, d), {s, t}, {u, v}, x, y, "tool")
  {
    hide Rivals;
    PairsAreRivals(TwoPairs(s, t, u, v, ips, x, y, c, d), s, t, u, v, x, y, c, d);
  }

  lemma FourSessions()
    ensures exists meta: Sessions, a, b, x, y, tool :: Rivals(meta, a, b, x, y, tool)
  {
    hide Rivals;
    assert "10.0.0"[5] != "10.0.1"[5] && "10.0.0.1"[7] != "10.0.0.2"[7] && "10.0.1.1"[7] != "10.0.1.2"[7];
    TwoPairsAreRivals("s", "t", "u", "v", ["10.0.0.1", "10.0.0.2", "10.0.1.1", "10.0.1.2"],
                      "10.0.0", "10.0.1", "id", "ls");
  }

  lemma NothingShared(meta: Sessions, sids: set<string>, s: string, u: string)
    requires sids <= meta.Keys && s in sids && u in sids && meta[s].commands !! meta[u].commands
    ensures GroupConfidence(meta, sids) == 0.30
  {
    assert Shared(meta, sids) == {};
  }

  lemma PairConfidence(meta: Sessions, s: string, t: string, command: string)
    requires s in meta && t in meta && meta[s].ip != meta[t].ip && command != ""
    requires command in meta[s].commands && command in meta[t].commands
    ensures GroupConfidence(meta, {s, t}) >= 0.65
  {
    assert command in Shared(meta, {s, t}) - {""};
    assert meta[s].ip in IpsOf(meta, {s, t}) && meta[t].ip in IpsOf(meta, {s, t});
    Larger({meta[s].ip, meta[t].ip}, IpsOf(meta, {s, t}));
  }

  /** Such sessions do come out of detection as two campaigns. */
  method DetectRivals(meta: Sessions, order: seq<string>, ghost a: set<string>, ghost b: set<string>, ghost x: string,
                      ghost y: string, ghost tool: string)
    returns (result: seq<Campaign>, ghost held: seq<Entry>)
    requires Rivals(meta, a, b, x, y, tool) && DistinctSids(order) && forall s :: s in order <==> s in meta
    ensures |result| == 2 && |held| == 2 && !Apart(Sids(held))
  {
    hide FromClues, Consolidated, Rivals, Apart, RankedEntries, Chosen, AllClues, Held, FromRawGroup, Fits, InOrder,
      DistinctSids;
    ghost var sets, entries;
    result, sets, entries, held := DetectCampaigns(meta, order);
    RivalsShouldStillMerge(meta, order, a, b, x, y, tool, entries, held);
  }
}
