/** Who a campaign goes to: pages fetched behind a cursor against the whole table, the count against the list, and the
    dispatch that relies on both. Contact ids are unique and ordered, as the table's uuids are. */
module CampaignAudience {
  import opened Options
  import opened PlanGates

  datatype Contact = Contact(id: nat, tenant: nat, phone: string, email: string, name: string, unsubscribed: bool)

  datatype Link = Link(contact: nat, tag: nat)

  datatype Database = Database(contacts: seq<Contact>, links: seq<Link>)

  /** A campaign's segment: the contacts with a tag, or all of them. */
  datatype Segment = Segment(tag: Option<nat>)

  const AUDIENCE_BATCH_SIZE := 1000

  predicate UniqueIds(table: seq<Contact>) { forall i, j :: 0 <= i < j < |table| ==> table[i].id != table[j].id }

  predicate UniqueLinks(links: seq<Link>) { forall i, j :: 0 <= i < j < |links| ==> links[i] != links[j] }

  predicate Keys(db: Database) { UniqueIds(db.contacts) && UniqueLinks(db.links) }

  predicate Reachable(c: Contact, tenant: nat) { c.tenant == tenant && !c.unsubscribed }

  // ---------- Queries ----------

  function Where(table: seq<Contact>, tenant: nat): seq<Contact> {
    if table == [] then [] else
      (if Reachable(table[0], tenant) then [table[0]] else []) + Where(table[1..], tenant)
  }

  function Insert(c: Contact, rows: seq<Contact>): seq<Contact> {
    if rows == [] || c.id <= rows[0].id then [c] + rows else [rows[0]] + Insert(c, rows[1..])
  }

  function OrderById(rows: seq<Contact>): seq<Contact> {
    if rows == [] then [] else Insert(rows[0], OrderById(rows[1..]))
  }

  /** The eligible contacts of a tenant in id order. */
  function Rows(table: seq<Contact>, tenant: nat): seq<Contact> { OrderById(Where(table, tenant)) }

  function From(rows: seq<Contact>, cursor: nat): seq<Contact> {
    if rows == [] then [] else (if rows[0].id >= cursor then [rows[0]] else []) + From(rows[1..], cursor)
  }

  function Rest(rows: seq<Contact>, cursor: Option<nat>): seq<Contact> {
    if cursor.None? then rows else
      var from := From(rows, cursor.value);
      if from == [] then [] else from[1..]
  }

  /** `findMany` with `take`, and with `cursor` and `skip: 1` from the second page on: the database starts at the
      cursor's place in the order and drops the first row it finds there. */
  function Page(table: seq<Contact>, tenant: nat, cursor: Option<nat>, take: nat): seq<Contact> {
    var rest := Rest(Rows(table, tenant), cursor);
    if take <= |rest| then rest[..take] else rest
  }

  // ---------- What the order guarantees ----------

  predicate Ascending(rows: seq<Contact>) { forall i, j :: 0 <= i < j < |rows| ==> rows[i].id < rows[j].id }

  lemma {:induction false} WhereExact(table: seq<Contact>, tenant: nat)
    ensures forall c :: c in Where(table, tenant) <==> c in table && Reachable(c, tenant)
    ensures UniqueIds(table) ==> UniqueIds(Where(table, tenant))
  {
    if table != [] {
      WhereExact(table[1..], tenant);
      assert table == [table[0]] + table[1..];
      var rest := Where(table[1..], tenant);
      assert UniqueIds(table) ==> UniqueIds(table[1..]) && forall i :: 0 <= i < |rest| ==> rest[i] in table[1..];
      assert UniqueIds(table) ==> forall c :: c in table[1..] ==> c.id != table[0].id;
    }
  }

  lemma {:induction false} InsertExact(c: Contact, rows: seq<Contact>)
    requires Ascending(rows) && forall r :: r in rows ==> r.id != c.id
    ensures Ascending(Insert(c, rows)) && |Insert(c, rows)| == |rows| + 1
    ensures forall r :: r in Insert(c, rows) <==> r == c || r in rows
  {
    if rows != [] && c.id > rows[0].id {
      assert rows == [rows[0]] + rows[1..];
      InsertExact(c, rows[1..]);
      var rest := Insert(c, rows[1..]);
      forall i | 0 <= i < |rest| ensures rest[i].id > rows[0].id {
        assert rest[i] in rest;
        assert rest[i] == c || rest[i] in rows[1..];
      }
    }
  }

  lemma {:induction false} OrderExact(rows: seq<Contact>)
    requires UniqueIds(rows)
    ensures Ascending(OrderById(rows)) && |OrderById(rows)| == |rows|
    ensures forall r :: r in OrderById(rows) <==> r in rows
  {
    if rows != [] {
      assert rows == [rows[0]] + rows[1..];
      OrderExact(rows[1..]);
      assert forall r :: r in rows[1..] ==> r.id != rows[0].id;
      InsertExact(rows[0], OrderById(rows[1..]));
    }
  }

  /** The rows are the eligible contacts, each once, in ascending order of their ids. */
  lemma RowsExact(table: seq<Contact>, tenant: nat)
    requires UniqueIds(table)
    ensures Ascending(Rows(table, tenant)) && |Rows(table, tenant)| == |Where(table, tenant)|
    ensures forall c :: c in Rows(table, tenant) <==> c in table && c.tenant == tenant && !c.unsubscribed
  {
    WhereExact(table, tenant);
    OrderExact(Where(table, tenant));
  }

  lemma {:induction false} FromIsSuffix(rows: seq<Contact>, k: nat, cursor: nat)
    requires Ascending(rows) && k <= |rows|
    requires forall i :: 0 <= i < |rows| ==> (rows[i].id >= cursor <==> i >= k)
    ensures From(rows, cursor) == rows[k..]
  {
    if rows != [] {
      assert rows[1..][if k > 0 then k - 1 else 0..] == rows[if k > 0 then k else 1..];
      FromIsSuffix(rows[1..], if k > 0 then k - 1 else 0, cursor);
      assert k == 0 ==> rows == [rows[0]] + rows[1..];
    }
  }

  lemma RestIsSuffix(rows: seq<Contact>, k: nat)
    requires Ascending(rows) && k <= |rows|
    ensures Rest(rows, if k == 0 then None else Some(rows[k - 1].id)) == rows[k..]
  {
    if k > 0 {
      FromIsSuffix(rows, k - 1, rows[k - 1].id);
      assert rows[k - 1..][1..] == rows[k..];
    }
  }

  /** A page behind the last row of the previous one goes on exactly where that one stopped. */
  lemma PageContinues(table: seq<Contact>, tenant: nat, k: nat, take: nat)
    requires UniqueIds(table)
    requires k <= |Rows(table, tenant)|
    ensures
      var rows := Rows(table, tenant);
      Page(table, tenant, if k == 0 then None else Some(rows[k - 1].id), take)
        == rows[k..if k + take < |rows| then k + take else |rows|]
  {
    RowsExact(table, tenant);
    RestIsSuffix(Rows(table, tenant), k);
  }

  lemma HeadOnlyOnce(rows: seq<Contact>)
    requires Ascending(rows) && rows != []
    ensures rows[0] !in rows[1..]
  {
  }

  lemma {:induction false} FromExact(rows: seq<Contact>, cursor: nat)
    requires Ascending(rows)
    ensures Ascending(From(rows, cursor))
    ensures forall c :: c in From(rows, cursor) <==> c in rows && c.id >= cursor
  {
    if rows != [] {
      FromExact(rows[1..], cursor);
      assert rows == [rows[0]] + rows[1..];
      var rest := From(rows[1..], cursor);
      assert forall i :: 0 <= i < |rest| ==> rest[i] in rows[1..];
    }
  }

  /** The contact behind the cursor opts out between two pages: the row that is skipped is then the next eligible
      contact, who is never messaged, while every later one still is. */
  lemma OptOutBetweenPagesDropsOne(table: seq<Contact>, tenant: nat, cursor: nat, take: nat)
    requires UniqueIds(table) && (exists c :: c in table && c.id == cursor) && take >= 1
    requires forall c :: c in table && c.id == cursor ==> !Reachable(c, tenant)
    ensures
      var later := From(Rows(table, tenant), cursor);
      && (forall c :: c in later <==> c in table && Reachable(c, tenant) && c.id > cursor)
      && (later != [] ==> later[0] !in Page(table, tenant, Some(cursor), take))
      && (later != [] && take >= |later| ==> Page(table, tenant, Some(cursor), take) == later[1..])
  {
    RowsExact(table, tenant);
    FromExact(Rows(table, tenant), cursor);
    var later := From(Rows(table, tenant), cursor);
    if later != [] {
      HeadOnlyOnce(later);
      var page := Page(table, tenant, Some(cursor), take);
      assert forall c :: c in page ==> c in later[1..];
    }
  }

  lemma SmallestFirst(rows: seq<Contact>, c: Contact)
    requires Ascending(rows) && c in rows && forall r :: r in rows ==> r.id >= c.id
    ensures rows[0] == c && forall r :: r in rows[1..] ==> r.id > c.id
  {
    assert rows[0] in rows;
  }

  /** Fetching behind a cursor gives exactly the eligible contacts with a larger id if and only if the cursor's contact
      is still eligible, or nobody behind it is. */
  lemma RestIsCompleteIff(table: seq<Contact>, tenant: nat, cursor: Contact)
    requires UniqueIds(table) && cursor in table
    ensures
      var rows := Rows(table, tenant);
      (forall c :: c in Rest(rows, Some(cursor.id)) <==> c in table && Reachable(c, tenant) && c.id > cursor.id)
      <==> Reachable(cursor, tenant) || From(rows, cursor.id) == []
  {
    var rows := Rows(table, tenant);
    RowsExact(table, tenant);
    FromExact(rows, cursor.id);
    var from := From(rows, cursor.id);
    if from != [] {
      HeadOnlyOnce(from);
      assert from == [from[0]] + from[1..];
      assert from[0] in from;
      if Reachable(cursor, tenant) {
        assert cursor in from;
        SmallestFirst(from, cursor);
      } else {
        assert from[0].id != cursor.id by {
          var i, j :| 0 <= i < |table| && table[i] == from[0] && 0 <= j < |table| && table[j] == cursor;
        }
        assert from[0] !in Rest(rows, Some(cursor.id));
      }
    }
  }

  // ---------- The segment of one tag ----------

  function Holder(table: seq<Contact>, id: nat): Option<Contact> {
    if table == [] then None else if table[0].id == id then Some(table[0]) else Holder(table[1..], id)
  }

  function Tagged(links: seq<Link>, table: seq<Contact>, tag: nat, tenant: nat): seq<Contact> {
    if links == [] then [] else
      var h := Holder(table, links[0].contact);
      (if links[0].tag == tag && h.Some? && Reachable(h.value, tenant) then [h.value] else [])
        + Tagged(links[1..], table, tag, tenant)
  }

  /** `contactTag.count` with the same filter. */
  function TaggedCount(links: seq<Link>, table: seq<Contact>, tag: nat, tenant: nat): nat {
    if links == [] then 0 else
      var h := Holder(table, links[0].contact);
      (if links[0].tag == tag && h.Some? && Reachable(h.value, tenant) then 1 else 0)
        + TaggedCount(links[1..], table, tag, tenant)
  }

  lemma {:induction false} HolderExact(table: seq<Contact>, id: nat)
    requires UniqueIds(table)
    ensures forall c :: Holder(table, id) == Some(c) <==> c in table && c.id == id
  {
    if table != [] {
      HolderExact(table[1..], id);
      assert table == [table[0]] + table[1..];
      assert forall c :: c in table[1..] ==> c.id != table[0].id;
    }
  }

  lemma {:induction false} TaggedExact(links: seq<Link>, table: seq<Contact>, tag: nat, tenant: nat)
    requires UniqueIds(table) && UniqueLinks(links)
    ensures UniqueIds(Tagged(links, table, tag, tenant))
    ensures |Tagged(links, table, tag, tenant)| == TaggedCount(links, table, tag, tenant)
    ensures forall c :: c in Tagged(links, table, tag, tenant) <==>
                        c in table && Reachable(c, tenant) && Link(c.id, tag) in links
  {
    if links != [] {
      TaggedExact(links[1..], table, tag, tenant);
      HolderExact(table, links[0].contact);
      assert links == [links[0]] + links[1..];
      var rest := Tagged(links[1..], table, tag, tenant);
      assert forall i :: 0 <= i < |rest| ==> Link(rest[i].id, tag) in links[1..];
      assert links[0] !in links[1..];
    }
  }

  // ---------- Audience and count ----------

  function Audience(db: Database, tenant: nat, segment: Segment): seq<Contact> {
    if segment.tag.None? then Rows(db.contacts, tenant)
    else Tagged(db.links, db.contacts, segment.tag.value, tenant)
  }

  function CountAudience(db: Database, tenant: nat, segment: Segment): nat {
    if segment.tag.None? then |Where(db.contacts, tenant)|
    else TaggedCount(db.links, db.contacts, segment.tag.value, tenant)
  }

  /** On an unchanged database the list and the count agree on both arms, and the list holds exactly the eligible
      contacts of the segment, each once. */
  lemma AudienceExact(db: Database, tenant: nat, segment: Segment)
    requires Keys(db)
    ensures |Audience(db, tenant, segment)| == CountAudience(db, tenant, segment)
    ensures UniqueIds(Audience(db, tenant, segment))
    ensures var a := Audience(db, tenant, segment); forall i, j :: 0 <= i < j < |a| ==> a[i].id != a[j].id
    ensures forall c :: c in Audience(db, tenant, segment) <==>
              && c in db.contacts && c.tenant == tenant && !c.unsubscribed
              && (segment.tag.Some? ==> Link(c.id, segment.tag.value) in db.links)
  {
    if segment.tag.None? {
      RowsExact(db.contacts, tenant);
    } else {
      TaggedExact(db.links, db.contacts, segment.tag.value, tenant);
    }
  }

  // ---------- The service ----------

  datatype Job = Job(campaign: nat, contact: nat, recipient: string)

  datatype Dispatched =
    | Queued(jobs: seq<Job>)
    | OverLimit(limit: nat, count: nat)
    | SegmentNotFound

  function JobFor(campaign: nat, c: Contact): Job {
    Job(campaign, c.id, if c.phone != "" then c.phone else c.email)
  }

  lemma PrefixGrows(rows: seq<Contact>, k: nat, take: nat)
    requires k <= |rows|
    ensures
      var end := if k + take < |rows| then k + take else |rows|;
      && rows[..k] + rows[k..end] == rows[..end]
      && |rows[k..end]| == end - k
      && (end > k ==> rows[k..end][end - k - 1] == rows[end - 1])
      && rows[..|rows|] == rows
  {
  }

  class CampaignService {
    const db: Database
    const segments: map<nat, Segment>
    var queue: seq<Job>

    constructor (db: Database, segments: map<nat, Segment>)
      ensures this.db == db && this.segments == segments && queue == []
    {
      this.db, this.segments, queue := db, segments, [];
    }

    /** Pages of `batch` rows until a short one, however the table's size relates to the batch. */
    method ResolveAll(tenant: nat, batch: nat) returns (results: seq<Contact>)
      requires UniqueIds(db.contacts) && batch > 0
      ensures results == Rows(db.contacts, tenant)
    {
      results := [];
      var cursor, table := None, db.contacts;
      ghost var rows, k := Rows(table, tenant), 0;
      while true
        invariant k <= |rows| && results == rows[..k]
        invariant cursor == if k == 0 then None else Some(rows[k - 1].id)
        decreases |rows| - k
      {
        PageContinues(table, tenant, k, batch);
        PrefixGrows(rows, k, batch);
        var page := Page(table, tenant, cursor, batch);
        results := results + page;
        k := k + |page|;
        if |page| < batch {
          break;
        }
        cursor := Some(page[|page| - 1].id);
      }
    }

    method ResolveAudience(tenant: nat, segment: Segment) returns (results: seq<Contact>)
      requires Keys(db)
      ensures results == Audience(db, tenant, segment)
    {
      if segment.tag.None? {
        results := ResolveAll(tenant, AUDIENCE_BATCH_SIZE);
      } else {
        results := Tagged(db.links, db.contacts, segment.tag.value, tenant);
      }
    }

    /** Queues one job for each eligible contact, and never more than the plan allows. */
    method DispatchCampaign(tenant: nat, plan: Plan, trialActive: bool, campaign: nat, segmentId: nat)
      returns (result: Dispatched)
      requires Keys(db)
      modifies this
      ensures result.SegmentNotFound? <==> segmentId !in segments
      ensures result.OverLimit? <==>
        && segmentId in segments
        && CountAudience(db, tenant, segments[segmentId])
             > CampaignAudienceLimit(if trialActive then Trial else Paid(plan))
      ensures queue == old(queue) + if result.Queued? then result.jobs else []
      ensures result.OverLimit? ==>
        && result.count == CountAudience(db, tenant, segments[segmentId])
        && result.limit == (if trialActive then 50
                            else match plan case SmsPlan => 500 case VoicePlan => 2000 case AiPlan => 10000)
      ensures result.Queued? ==>
        var limit := if trialActive then 50
                     else match plan case SmsPlan => 500 case VoicePlan => 2000 case AiPlan => 10000;
        && |result.jobs| <= limit
        && (forall i, j :: 0 <= i < j < |result.jobs| ==> result.jobs[i].contact != result.jobs[j].contact)
        && (forall i :: 0 <= i < |result.jobs| ==> result.jobs[i].campaign == campaign)
        && (forall c :: c in Audience(db, tenant, segments[segmentId]) ==>
              Job(campaign, c.id, if c.phone != "" then c.phone else c.email) in result.jobs)
        && |result.jobs| == CountAudience(db, tenant, segments[segmentId])
    {
      if segmentId !in segments {
        return SegmentNotFound;
      }
      var segment := segments[segmentId];
      var limit := CampaignAudienceLimit(if trialActive then Trial else Paid(plan));
      AudienceExact(db, tenant, segment);
      var count := CountAudience(db, tenant, segment);
      if count == 0 {
        return Queued([]);
      }
      if count > limit {
        return OverLimit(limit, count);
      }
      var audience := ResolveAudience(tenant, segment);
      var jobs := seq(|audience|, i requires 0 <= i < |audience| => JobFor(campaign, audience[i]));
      forall c | c in audience ensures JobFor(campaign, c) in jobs {
        var i :| 0 <= i < |audience| && audience[i] == c;
        assert jobs[i] == JobFor(campaign, c);
      }
      queue := queue + jobs;
      return Queued(jobs);
    }
  }
}
