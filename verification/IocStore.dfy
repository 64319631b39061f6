/** The IOC tables and the statements that change them (src/api/ioc_store.py).
    Time stamps are reals: the code only compares them, and any countable total order
    embeds in the reals. */
module IocStores {
  import opened Text

  datatype Key = Key(kind: string, value: string)

  datatype Ioc = Ioc(key: Key, first: Option<real>, last: Option<real>, confidence: real,
                     categories: seq<string>, ips: seq<string>, campaigns: seq<string>)

  datatype Row = Row(first: Option<real>, last: Option<real>, confidence: real, categories: seq<string>)

  datatype Campaign = Campaign(id: string, ips: seq<string>)

  /** The columns whose content does not depend on batching, and the join tables. */
  datatype Db = Db(iocs: map<Key, Row>, ips: set<(Key, string)>, links: set<(Key, string)>,
                   campaigns: map<string, seq<string>>, cursors: map<string, nat>)

  const EMPTY := Db(map[], {}, {}, map[], map[])

  // ------------------------------------------------------------------- statements

  /** `CASE WHEN new < old OR old IS NULL THEN new ELSE old END`. */
  function Earliest(old_: Option<real>, new_: Option<real>): Option<real> {
    if old_.None? || (new_.Some? && new_.value < old_.value) then new_ else old_
  }

  function Latest(old_: Option<real>, new_: Option<real>): Option<real> {
    if old_.None? || (new_.Some? && new_.value > old_.value) then new_ else old_
  }

  function Larger(a: real, b: real): real { if a < b then b else a }

  /** Appends, in order, what is not there yet. */
  function AddMissing(known: seq<string>, more: seq<string>): seq<string> {
    if more == [] then known
    else
      var known' := AddMissing(known, more[..|more| - 1]);
      var c := more[|more| - 1];
      if c in known' then known' else known' + [c]
  }

  function Pairs(key: Key, values: seq<string>): set<(Key, string)> {
    set v | v in values :: (key, v)
  }

  function Upsert(db: Db, ioc: Ioc): Db {
    var row :=
      if ioc.key in db.iocs then
        var was := db.iocs[ioc.key];
        Row(Earliest(was.first, ioc.first), Latest(was.last, ioc.last), Larger(was.confidence, ioc.confidence),
            AddMissing(was.categories, ioc.categories))
      else Row(ioc.first, ioc.last, ioc.confidence, ioc.categories);
    db.(iocs := db.iocs[ioc.key := row],
        ips := db.ips + Pairs(ioc.key, ioc.ips),
        links := db.links + Pairs(ioc.key, ioc.campaigns))
  }

  /** Adds a category to an existing row. */
  function Backfill(db: Db, key: Key, category: string): Db {
    if key in db.iocs && category !in db.iocs[key].categories then
      var was := db.iocs[key];
      db.(iocs := db.iocs[key := was.(categories := was.categories + [category])])
    else db
  }

  predicate DistinctIds(campaigns: seq<Campaign>) {
    forall i, j :: 0 <= i < j < |campaigns| ==> campaigns[i].id != campaigns[j].id
  }

  function CampaignMap(campaigns: seq<Campaign>): map<string, seq<string>> {
    if campaigns == [] then map[]
    else
      var last := campaigns[|campaigns| - 1];
      CampaignMap(campaigns[..|campaigns| - 1])[last.id := last.ips]
  }

  lemma {:induction false} CampaignKeys(campaigns: seq<Campaign>)
    ensures forall id :: id in CampaignMap(campaigns) <==> exists k :: 0 <= k < |campaigns| && campaigns[k].id == id
    ensures DistinctIds(campaigns) ==>
      forall k :: 0 <= k < |campaigns| ==>
        campaigns[k].id in CampaignMap(campaigns) && CampaignMap(campaigns)[campaigns[k].id] == campaigns[k].ips
  {
    if campaigns != [] { CampaignKeys(campaigns[..|campaigns| - 1]); }
  }

  class Connection {
    var iocs: map<Key, Row>
    var ips: set<(Key, string)>
    var links: set<(Key, string)>
    var campaigns: map<string, seq<string>>
    var cursors: map<string, nat>
    /** What a rollback goes back to. */
    var committed: Db

    function View(): Db
      reads this
    {
      Db(iocs, ips, links, campaigns, cursors)
    }

    constructor ()
      ensures View() == EMPTY && committed == EMPTY
    {
      iocs, ips, links, campaigns, cursors := map[], {}, {}, map[], map[];
      committed := EMPTY;
    }

    method Commit()
      modifies this
      ensures View() == old(View()) && committed == View()
    {
      committed := View();
    }

    method Rollback()
      modifies this
      ensures View() == committed == old(committed)
    {
      iocs, ips, links := committed.iocs, committed.ips, committed.links;
      campaigns, cursors := committed.campaigns, committed.cursors;
    }

    method UpsertIoc(ioc: Ioc)
      modifies this
      ensures View() == Upsert(old(View()), ioc) && committed == old(committed)
    {
      if ioc.key in iocs {
        var was := iocs[ioc.key];
        var categories := was.categories;
        for i := 0 to |ioc.categories|
          invariant categories == AddMissing(was.categories, ioc.categories[..i])
        {
          assert ioc.categories[..i + 1][..i] == ioc.categories[..i];
          if ioc.categories[i] !in categories { categories := categories + [ioc.categories[i]]; }
        }
        assert ioc.categories[..|ioc.categories|] == ioc.categories;
        iocs := iocs[ioc.key := Row(Earliest(was.first, ioc.first), Latest(was.last, ioc.last),
                                    Larger(was.confidence, ioc.confidence), categories)];
      } else {
        iocs := iocs[ioc.key := Row(ioc.first, ioc.last, ioc.confidence, ioc.categories)];
      }
      AddSourceIps(ioc.key, ioc.ips);
      AddCampaignLinks(ioc.key, ioc.campaigns);
    }

    method AddSourceIps(key: Key, values: seq<string>)
      modifies this`ips
      ensures ips == old(ips) + Pairs(key, values)
    {
      for i := 0 to |values|
        invariant ips == old(ips) + Pairs(key, values[..i])
      {
        ips := ips + {(key, values[i])};
      }
    }

    method AddCampaignLinks(key: Key, values: seq<string>)
      modifies this`links
      ensures links == old(links) + Pairs(key, values)
    {
      for i := 0 to |values|
        invariant links == old(links) + Pairs(key, values[..i])
      {
        links := links + {(key, values[i])};
      }
    }

    method BackfillCategory(key: Key, category: string)
      modifies this
      ensures View() == Backfill(old(View()), key, category) && committed == old(committed)
    {
      if key in iocs {
        var was := iocs[key];
        if category !in was.categories {
          iocs := iocs[key := was.(categories := was.categories + [category])];
        }
      }
    }

    method LinkCampaign(camp: Campaign)
      modifies this`links
      ensures links == old(links) + LinkSet(ips, [camp])
    {
      hide LinkSet;
      LinkSetEmpty(ips, camp.id);
      for j := 0 to |camp.ips|
        invariant links == old(links) + LinkSet(ips, [Campaign(camp.id, camp.ips[..j])])
      {
        LinkSetGrows(ips, camp.id, camp.ips[..j], camp.ips[j]);
        assert camp.ips[..j + 1] == camp.ips[..j] + [camp.ips[j]];
        links := links + set p | p in ips && p.1 == camp.ips[j] :: (p.0, camp.id);
      }
      assert camp.ips[..|camp.ips|] == camp.ips;
    }

    /** Clears and refills campaigns and links. A repeated campaign id breaks the primary
        key: the statement raises and the surrounding transaction rolls back. */
    method ReplaceCampaigns(found: seq<Campaign>) returns (ok: bool)
      modifies this`links, this`campaigns
      ensures ok <==> DistinctIds(found)
      ensures ok ==> View() == Replaced(old(View()), found)
    {
      hide LinkSet;
      links, campaigns := {}, map[];
      LinkSetEmpty(ips, "");
      for i := 0 to |found|
        invariant DistinctIds(found[..i])
        invariant campaigns == CampaignMap(found[..i]) && links == LinkSet(ips, found[..i])
      {
        var camp, before := found[i], found[..i];
        CampaignKeys(before);
        assert found[..i + 1] == before + [camp] && (before + [camp])[..i] == before;
        if camp.id in campaigns {
          var k :| 0 <= k < i && found[k].id == camp.id;
          return false;
        }
        campaigns := campaigns[camp.id := camp.ips];
        LinkCampaign(camp);
        LinkSetAppends(ips, before, camp);
      }
      assert found[..|found|] == found;
      ok := true;
    }

    method SetCursor(path: string, offset: nat)
      modifies this`cursors
      ensures View() == old(View()).(cursors := old(cursors)[path := offset])
    {
      cursors := cursors[path := offset];
    }
  }

  /** Every indicator paired with every campaign it shares an address with. */
  function LinkSet(ips: set<(Key, string)>, campaigns: seq<Campaign>): set<(Key, string)> {
    set p, c | p in ips && c in campaigns && p.1 in c.ips :: (p.0, c.id)
  }

  lemma LinkSetEmpty(ips: set<(Key, string)>, id: string)
    ensures LinkSet(ips, []) == {} && LinkSet(ips, [Campaign(id, [])]) == {}
  {
  }

  lemma LinkSetGrows(ips: set<(Key, string)>, id: string, front: seq<string>, ip: string)
    ensures LinkSet(ips, [Campaign(id, front + [ip])])
      == LinkSet(ips, [Campaign(id, front)]) + set p | p in ips && p.1 == ip :: (p.0, id)
  {
  }

  lemma LinkSetAppends(ips: set<(Key, string)>, campaigns: seq<Campaign>, camp: Campaign)
    ensures LinkSet(ips, campaigns + [camp]) == LinkSet(ips, campaigns) + LinkSet(ips, [camp])
  {
  }

  function Replaced(db: Db, campaigns: seq<Campaign>): Db {
    db.(campaigns := CampaignMap(campaigns), links := LinkSet(db.ips, campaigns))
  }
}
