/** The mock lead store of src/mock/api/mockApi.ts: an in-memory table of leads
    keyed by string id, seeded with eight records, answering GET /api/leads with
    the whole table and PATCH /api/leads/:id with a field-level merge that always
    stamps `submitted` with the server's time. */
module MockApi {
  import opened LeadRecord

  /** A record as the store holds it: the lead's fields plus its id. */
  datatype StoredLead = StoredLead(id: string, lead: Lead)

  /** The handler's failure: `schema.find` found no record with this id, so the
      `.update` call on its result throws and no record is touched. */
  datatype Error = UnknownId(id: string)

  datatype Result<T> = Ok(value: T) | Err(error: Error)

  /** A parsed PATCH body: the fields it carries and their values. */
  type Body = map<Column, string>

  /** The eight records the store is seeded with, in seeding order. */
  function SeedLeads(): (records: seq<StoredLead>)
    ensures |records| == 8
    ensures forall i :: 0 <= i < |records| ==> records[i].lead.submitted == "02/02/2024 2:45 PM"
  {
    [ StoredLead("001", Lead("Jorge Ruiz", "02/02/2024 2:45 PM", "Pending", "Mexico")),
      StoredLead("002", Lead("Bahar Zamir", "02/02/2024 2:45 PM", "Pending", "Mexico")),
      StoredLead("003", Lead("Mary Lopez", "02/02/2024 2:45 PM", "Pending", "Brazil")),
      StoredLead("004", Lead("Li Zijin", "02/02/2024 2:45 PM", "Pending", "South Korea")),
      StoredLead("005", Lead("Mark Antonov", "02/02/2024 2:45 PM", "Pending", "Russia")),
      StoredLead("006", Lead("Jane Ma", "02/02/2024 2:45 PM", "Pending", "Mexico")),
      StoredLead("007", Lead("Anand Jain", "02/02/2024 2:45 PM", "Reached Out", "Mexico")),
      StoredLead("008", Lead("Anna Voronova", "02/02/2024 2:45 PM", "Pending", "France")) ]
  }

  /** The ids in `ids` are pairwise distinct. */
  ghost predicate DistinctIds(ids: seq<string>)
  {
    forall i, j :: 0 <= i < j < |ids| ==> ids[i] != ids[j]
  }

  function IdsOf(records: seq<StoredLead>): (ids: seq<string>)
    ensures |ids| == |records|
    ensures forall i :: 0 <= i < |records| ==> ids[i] == records[i].id
  {
    seq(|records|, i requires 0 <= i < |records| => records[i].id)
  }

  /** The seed holds eight records with the distinct ids "001" to "008". */
  lemma SeedIds()
    ensures IdsOf(SeedLeads()) == ["001", "002", "003", "004", "005", "006", "007", "008"]
    ensures DistinctIds(IdsOf(SeedLeads()))
  {
  }

  /** `{ ...stored, ...body }`: every field the body carries takes the body's value,
      every other field keeps the stored one. */
  function Merge(stored: Lead, body: Body): (r: Lead)
    ensures forall c :: c in body ==> r.Get(c) == body[c]
    ensures forall c :: c !in body ==> r.Get(c) == stored.Get(c)
  {
    Lead(if Name in body then body[Name] else stored.name,
         if Submitted in body then body[Submitted] else stored.submitted,
         if Status in body then body[Status] else stored.status,
         if Country in body then body[Country] else stored.country)
  }

  /** The table after PATCH `id` with `body` at server time `now`: the record is
      merged with `{ ...body, submitted: now }`, so the stamp wins over any
      `submitted` in the body, and no other record changes. */
  function PatchedStore(leads: map<string, Lead>, id: string, body: Body, now: string): (r: map<string, Lead>)
    requires id in leads
    ensures r.Keys == leads.Keys
    ensures r[id].submitted == now
    ensures forall c :: c != Submitted && c in body ==> r[id].Get(c) == body[c]
    ensures forall c :: c != Submitted && c !in body ==> r[id].Get(c) == leads[id].Get(c)
    ensures forall k :: k in leads && k != id ==> r[k] == leads[k]
  {
    leads[id := Merge(leads[id], body[Submitted := now])]
  }

  /** Merging the same body twice is merging it once. */
  lemma MergeIdempotent(stored: Lead, body: Body)
    ensures Merge(Merge(stored, body), body) == Merge(stored, body)
  {
  }

  /** PATCH with the same body and the same time twice leaves the table as one PATCH does. */
  lemma PatchIdempotent(leads: map<string, Lead>, id: string, body: Body, now: string)
    requires id in leads
    ensures PatchedStore(PatchedStore(leads, id, body, now), id, body, now) == PatchedStore(leads, id, body, now)
  {
  }

  /** PATCHes to two different records do not interfere: in either order both merges
      persist, and neither record sees the other's fields. */
  lemma PatchesCommute(leads: map<string, Lead>, id1: string, body1: Body, now1: string,
                       id2: string, body2: Body, now2: string)
    requires id1 in leads && id2 in leads && id1 != id2
    ensures PatchedStore(PatchedStore(leads, id1, body1, now1), id2, body2, now2)
         == PatchedStore(PatchedStore(leads, id2, body2, now2), id1, body1, now1)
  {
  }

  /** Marking a lead "Reached Out" changes its status and stamp and keeps its name and country. */
  lemma ReachedOutPatch(leads: map<string, Lead>, id: string, now: string)
    requires id in leads
    ensures var r := PatchedStore(leads, id, map[Status := "Reached Out"], now)[id];
            r == Lead(leads[id].name, now, "Reached Out", leads[id].country)
  {
  }

  /** The table `loadData` builds from a list of records: each record under its id. */
  function Index(records: seq<StoredLead>): (table: map<string, Lead>)
    ensures forall id :: id in table <==> id in IdsOf(records)
    ensures records != [] ==> table[records[0].id] == records[0].lead
    decreases |records|
  {
    if records == [] then map[]
    else
      assert IdsOf(records) == [records[0].id] + IdsOf(records[1..]);
      Index(records[1..])[records[0].id := records[0].lead]
  }

  /** With distinct ids, the table has exactly the listed ids and finds each record's fields. */
  lemma {:induction false} IndexFinds(records: seq<StoredLead>)
    requires DistinctIds(IdsOf(records))
    ensures forall id :: id in Index(records) <==> id in IdsOf(records)
    ensures forall i :: 0 <= i < |records| ==> Index(records)[records[i].id] == records[i].lead
    decreases |records|
  {
    if records != [] {
      var rest := records[1..];
      assert IdsOf(rest) == IdsOf(records)[1..];
      IndexFinds(rest);
      forall i | 0 < i < |records| ensures records[i].id != records[0].id {
        assert IdsOf(records)[0] != IdsOf(records)[i];
      }
      forall i | 0 < i < |records| ensures Index(records)[records[i].id] == records[i].lead {
        assert records[i] == rest[i - 1];
      }
      forall id ensures id in Index(records) <==> id in IdsOf(records) {
        assert IdsOf(records) == [records[0].id] + IdsOf(rest);
      }
    }
  }

  class LeadStore {
    /** The ids in seeding order: the order GET lists the records in. */
    var ids: seq<string>
    /** The records' fields, by id. */
    var leads: map<string, Lead>

    /** Each id is listed once, and exactly the listed ids have a record. */
    ghost predicate Valid()
      reads this
    {
      && DistinctIds(ids)
      && (forall id :: id in leads <==> id in ids)
    }

    /** The table as GET lists it. */
    function Collection(): (rows: seq<StoredLead>)
      reads this
      requires Valid()
      ensures |rows| == |ids|
      ensures forall i :: 0 <= i < |ids| ==> rows[i] == StoredLead(ids[i], leads[ids[i]])
    {
      seq(|ids|, i requires 0 <= i < |ids| && Valid() reads this => StoredLead(ids[i], leads[ids[i]]))
    }

    /** `db.loadData`: a store holding `records`, listed in the given order. The
        server seeds it with `SeedLeads()`, whose ids are distinct by `SeedIds`. */
    constructor Load(records: seq<StoredLead>)
      requires DistinctIds(IdsOf(records))
      ensures Valid()
      ensures Collection() == records
    {
      IndexFinds(records);
      ids := IdsOf(records);
      leads := Index(records);
    }

    /** GET /api/leads: every stored record, in order; the store is not changed. */
    method GetAll() returns (rows: seq<StoredLead>)
      requires Valid()
      ensures |rows| == |ids|
      ensures forall i :: 0 <= i < |ids| ==> rows[i].id == ids[i] && rows[i].lead == leads[ids[i]]
    {
      rows := Collection();
    }

    /** PATCH /api/leads/:id at server time `now`: merge and stamp the record, then
        return it as stored; an unknown id changes nothing and fails. */
    method Patch(id: string, body: Body, now: string) returns (r: Result<StoredLead>)
      requires Valid()
      modifies this
      ensures Valid() && ids == old(ids)
      ensures id in old(leads) ==> leads == PatchedStore(old(leads), id, body, now)
      ensures id in old(leads) ==> r == Ok(StoredLead(id, leads[id]))
      ensures id !in old(leads) ==> leads == old(leads) && r == Err(UnknownId(id))
    {
      if id !in leads {
        return Err(UnknownId(id));
      }
      leads := PatchedStore(leads, id, body, now);
      r := Ok(StoredLead(id, leads[id]));
    }
  }

  /** `seeds(server)`: the store the mock server starts with. */
  method SeedStore() returns (store: LeadStore)
    ensures fresh(store) && store.Valid()
    ensures store.Collection() == SeedLeads()
    ensures store.ids == ["001", "002", "003", "004", "005", "006", "007", "008"]
  {
    SeedIds();
    store := new LeadStore.Load(SeedLeads());
  }
}
