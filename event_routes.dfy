/**
 * The event endpoints of backend/src/routes/events.ts: a public paged
 * list filtered by title, club and date window, the upcoming events, a
 * public read, and administrator create / update / delete with an
 * optional uploaded image.
 */
module EventRoutes {
  import opened Common
  import opened Text
  import opened Listing
  import opened Store
  import opened Http
  import opened ClubRoutes

  const EventNotFound := "Event not found"

  /**
   * A date query parameter after `q ? new Date(String(q)) : undefined`:
   * absent or empty, an instant, or text that makes an Invalid Date (an
   * object, so still truthy).
   */
  datatype DateParam = NoDate | At(t: int) | BadDate

  /**
   * The club id query parameter after `q ? Number(q) : undefined`: absent
   * or empty, an integer, a number with a fractional part, or NaN.
   */
  datatype ClubIdParam = NoClubId | ClubNum(n: int) | ClubFrac | ClubNaN

  datatype EventQuery = EventQuery(
    page: NumParam, limit: NumParam, search: string,
    clubId: ClubIdParam, startDate: DateParam, endDate: DateParam)

  /**
   * The `where` object: `title: { contains }`, `clubId`, `startDate: { gte }`
   * and `endDate: { lte }`, each `None` while the key is not set.
   * `startGte == Some(NoDate)` is `{ gte: undefined }`, which constrains nothing.
   */
  datatype EventWhere = EventWhere(
    title: Option<string>, clubId: Option<ClubIdParam>, startGte: Option<DateParam>, endLte: Option<DateParam>)

  /** The ORM refuses a `where` holding an Invalid Date or a fractional club id. */
  predicate Refused(w: EventWhere) {
    w.startGte == Some(BadDate) || w.endLte == Some(BadDate) || w.clubId == Some(ClubFrac)
  }

  /** The rows a `where` the ORM accepts selects. */
  predicate Admits(w: EventWhere, e: EventData) {
    && (w.title.None? || Contains(e.title, w.title.value))
    && (w.clubId.None? || (w.clubId.value.ClubNum? && e.clubId == w.clubId.value.n))
    && (w.startGte.None? || w.startGte == Some(NoDate) || (w.startGte.value.At? && e.startDate >= w.startGte.value.t))
    && (w.endLte.None? || (w.endLte.value.At? && e.endDate <= w.endLte.value.t))
  }

  /**
   * What the query asks for, parameter by parameter: a title containing a
   * non-empty search, the club of a non-zero club id (NaN and 0 are
   * falsy and filter nothing), a start no earlier than `startDate`, an end
   * no later than `endDate`.
   */
  predicate Wanted(q: EventQuery, e: EventData) {
    && (q.search == [] || Contains(e.title, q.search))
    && (q.clubId.ClubNum? && q.clubId.n != 0 ==> e.clubId == q.clubId.n)
    && (q.startDate.At? ==> e.startDate >= q.startDate.t)
    && (q.endDate.At? ==> e.endDate <= q.endDate.t)
  }

  /**
   * Lines 42-47 of the handler: the `where` object built key by key. The
   * result is refused exactly when a date parameter is an Invalid Date or
   * the club id is fractional (a truthy number the integer column refuses),
   * and otherwise selects exactly the events the query asks for.
   */
  method BuildWhere(q: EventQuery) returns (w: EventWhere)
    ensures Refused(w) <==> q.startDate.BadDate? || q.endDate.BadDate? || q.clubId.ClubFrac?
    ensures !Refused(w) ==> forall e :: Admits(w, e) <==> Wanted(q, e)
  {
    w := EventWhere(None, None, None, None);
    if q.search != [] {
      w := w.(title := Some(q.search));
    }
    if (q.clubId.ClubNum? && q.clubId.n != 0) || q.clubId.ClubFrac? {
      w := w.(clubId := Some(q.clubId));
    }
    if !q.startDate.NoDate? || !q.endDate.NoDate? {
      w := w.(startGte := Some(q.startDate));
    }
    if !q.endDate.NoDate? {
      w := w.(endLte := Some(q.endDate));
    }
  }

  function WhereFilter(w: EventWhere): Row<EventData> -> bool {
    (e: Row<EventData>) => Admits(w, e.data)
  }

  function WantedFilter(q: EventQuery): Row<EventData> -> bool {
    (e: Row<EventData>) => Wanted(q, e.data)
  }

  /** An event as the list sends it: its fields and its club's name, "" when the club is gone. */
  datatype EventView = EventView(
    id: int, title: string, description: string, clubId: int, startDate: int, endDate: int,
    location: Option<string>, image: Option<string>, createdAt: int, clubName: string)

  function ClubName(clubs: seq<Row<ClubData>>, id: int): (name: string)
    ensures Find(clubs, id).None? ==> name == ""
    ensures Find(clubs, id).Some? ==> name == Find(clubs, id).value.data.name
  {
    match Find(clubs, id)
    case None => ""
    case Some(c) => c.data.name
  }

  function EventViewOf(e: Row<EventData>, clubs: seq<Row<ClubData>>): (v: EventView)
    ensures v.id == e.id && v.createdAt == e.createdAt && v.clubId == e.data.clubId
    ensures v.title == e.data.title && v.description == e.data.description
    ensures v.startDate == e.data.startDate && v.endDate == e.data.endDate
    ensures v.location == e.data.location && v.image == e.data.image
    ensures v.clubName == ClubName(clubs, e.data.clubId)
  {
    EventView(e.id, e.data.title, e.data.description, e.data.clubId, e.data.startDate, e.data.endDate,
              e.data.location, e.data.image, e.createdAt, ClubName(clubs, e.data.clubId))
  }

  function EventViews(rows: seq<Row<EventData>>, clubs: seq<Row<ClubData>>): (r: seq<EventView>)
    ensures |r| == |rows| && forall i :: 0 <= i < |rows| ==> r[i] == EventViewOf(rows[i], clubs)
  {
    seq(|rows|, i requires 0 <= i < |rows| => EventViewOf(rows[i], clubs))
  }

  /**
   * The page the list promises: the events the query asks for, earliest
   * start first, cut to the paging, each with its club's name, beside the
   * number of all matches.
   */
  function WantedPage(events: seq<Row<EventData>>, clubs: seq<Row<ClubData>>, q: EventQuery, paging: Paging): (p: Page<EventView>)
    ensures p.total == |Filter(events, WantedFilter(q))|
    ensures |p.rows| <= paging.take
    ensures p.rows == EventViews(Window(Ordered(events, WantedFilter(q), StartDate, Asc), paging.skip, paging.take), clubs)
    ensures forall i :: 0 <= i < |p.rows| ==>
              exists j :: 0 <= j < |events| && Wanted(q, events[j].data) && p.rows[i] == EventViewOf(events[j], clubs)
    ensures forall i, j :: 0 <= i < j < |p.rows| ==> p.rows[i].startDate <= p.rows[j].startDate
  {
    var l := Listing.List(events, WantedFilter(q), StartDate, Asc, paging.skip, paging.take);
    assert forall i :: 0 <= i < |l.rows| ==> l.rows[i] in events && Wanted(q, l.rows[i].data);
    ListIsWindow(events, WantedFilter(q), StartDate, Asc, paging.skip, paging.take);
    Page(EventViews(l.rows, clubs), l.total)
  }

  /**
   * `GET /events`: builds the `where`, then asks the store for one page
   * ordered by start and for the count. There is no try/catch: an Invalid
   * Date, a fractional club id or a NaN or negative paging throws unhandled.
   */
  method List(db: Db, q: EventQuery) returns (reply: Reply<Page<EventView>>)
    ensures reply.Ok? || reply == Unhandled
    ensures reply.Ok? <==>
              PagingOf(q.page, q.limit, 10).Some? && !q.startDate.BadDate? && !q.endDate.BadDate? && !q.clubId.ClubFrac?
    ensures reply.Ok? ==> reply.body == WantedPage(db.events.rows, db.clubs.rows, q, PagingOf(q.page, q.limit, 10).value)
  {
    var w := BuildWhere(q);
    var paging := PagingOf(q.page, q.limit, 10);
    if Refused(w) || paging.None? {
      return Unhandled;
    }
    var events := db.events.rows;
    FilterSame(events, WhereFilter(w), WantedFilter(q));
    var p := Listing.List(events, WhereFilter(w), StartDate, Asc, paging.value.skip, paging.value.take);
    assert p == Listing.List(events, WantedFilter(q), StartDate, Asc, paging.value.skip, paging.value.take);
    reply := Ok(Page(EventViews(p.rows, db.clubs.rows), p.total));
  }

  function StartsFrom(now: int): Row<EventData> -> bool {
    (e: Row<EventData>) => e.data.startDate >= now
  }

  /**
   * `GET /events/upcoming`: at most `limit` (default 5) events starting
   * now or later, earliest first. A NaN or negative limit throws unhandled.
   */
  function Upcoming(events: seq<Row<EventData>>, limit: NumParam, now: int): (r: Reply<seq<Row<EventData>>>)
    ensures r.Ok? || r == Unhandled
    ensures r.Ok? <==> ParseOr(limit, 5).Some? && ParseOr(limit, 5).value >= 0
    ensures r.Ok? ==> |r.body| == Min(ParseOr(limit, 5).value, |Filter(events, StartsFrom(now))|)
    ensures r.Ok? ==> forall i :: 0 <= i < |r.body| ==> r.body[i] in events && r.body[i].data.startDate >= now
    ensures r.Ok? ==> SortedBy(r.body, StartDate, Asc)
    ensures r.Ok? ==> forall i :: 0 <= i < |r.body| ==> r.body[i] == Ordered(events, StartsFrom(now), StartDate, Asc)[i]
    ensures r.Ok? ==> multiset(r.body) <= multiset(Filter(events, StartsFrom(now)))
    ensures r.Ok? ==> forall e, i :: e in multiset(Filter(events, StartsFrom(now))) - multiset(r.body) && 0 <= i < |r.body| ==>
              r.body[i].data.startDate <= e.data.startDate
  {
    match ParseOr(limit, 5)
    case None => Unhandled
    case Some(n) =>
      if n < 0 then Unhandled
      else
        var p := Listing.List(events, StartsFrom(now), StartDate, Asc, 0, n);
        EarliestUpcoming(events, now, n);
        Ok(p.rows)
  }

  /** The first `n` upcoming events in start order are upcoming events, and none left out starts earlier. */
  lemma EarliestUpcoming(events: seq<Row<EventData>>, now: int, n: nat)
    ensures var rows := Listing.List(events, StartsFrom(now), StartDate, Asc, 0, n).rows;
            && multiset(rows) <= multiset(Filter(events, StartsFrom(now)))
            && forall e, i :: e in multiset(Filter(events, StartsFrom(now))) - multiset(rows) && 0 <= i < |rows| ==>
                 rows[i].data.startDate <= e.data.startDate
  {
    var ordered := Ordered(events, StartsFrom(now), StartDate, Asc);
    var rows := Listing.List(events, StartsFrom(now), StartDate, Asc, 0, n).rows;
    ListIsWindow(events, StartsFrom(now), StartDate, Asc, 0, n);
    assert rows == ordered[..|rows|];
    SortedPrefixFirst(ordered, |rows|, StartDate, Asc);
  }

  /** `GET /events/:id`: the stored event, 404 when absent; a non-integer id throws unhandled. */
  function Get(events: seq<Row<EventData>>, id: Option<int>): (r: Reply<Row<EventData>>)
    ensures r == Unhandled <==> id.None?
    ensures r == Fail(404, EventNotFound) <==> id.Some? && Find(events, id.value).None?
    ensures r.Ok? ==> r.body in events && r.body.id == id.value
    ensures id.Some? && Find(events, id.value).Some? ==> r == Ok(Find(events, id.value).value)
  {
    match id
    case None => Unhandled
    case Some(n) =>
      match Find(events, n)
      case None => Fail(404, EventNotFound)
      case Some(row) => Ok(row)
  }

  /** A read after a create under a fresh id answers the new row. */
  lemma GetAfterCreate(events: seq<Row<EventData>>, next: int, now: int, data: EventData)
    requires forall i :: 0 <= i < |events| ==> events[i].id < next
    ensures Get(events + [Row(next, now, data)], Some(next)) == Ok(Row(next, now, data))
  {
    FindAfterInsert(events, Row(next, now, data), next);
  }

  /** A read after an update answers the new fields under the old id and creation time. */
  lemma GetAfterUpdate(events: seq<Row<EventData>>, id: int, data: EventData)
    requires Find(events, id).Some?
    ensures Get(Replaced(events, id, data), Some(id)) == Ok(Row(id, Find(events, id).value.createdAt, data))
  {
    FindAfterUpdate(events, id, data, id);
  }

  /** A read after a delete answers 404. */
  lemma GetAfterDelete(events: seq<Row<EventData>>, id: int)
    ensures Get(Without(events, id), Some(id)) == Fail(404, EventNotFound)
  {
    DeleteRemovesId(events, id);
  }

  /** `z.preprocess((v) => Number(v), z.number().int())`: the number the sent value coerces to. */
  datatype NumberField = Unsent | Whole(n: int) | NotWhole

  /** `z.coerce.date()`: the date the sent value coerces to; an unsent value coerces to an Invalid Date. */
  datatype DateField = NoField | Instant(t: int) | InvalidDate

  datatype EventBody = EventBody(
    title: Json, description: Json, clubId: NumberField, startDate: DateField, endDate: DateField, location: Json)

  predicate LocationOk(v: Json) { v.Missing? || v.Str? }

  function LocationGiven(v: Json): Option<string> {
    if v.Str? then Some(v.s) else None
  }

  /** `EventSchema`: the first failing field in schema order. */
  function CreateIssue(b: EventBody): (r: Option<string>)
    ensures r.None? <==>
              Filled(b.title) && Filled(b.description) && b.clubId.Whole?
              && b.startDate.Instant? && b.endDate.Instant? && LocationOk(b.location)
    ensures r == Some("title") <==> !Filled(b.title)
  {
    if !Filled(b.title) then Some("title")
    else if !Filled(b.description) then Some("description")
    else if !b.clubId.Whole? then Some("clubId")
    else if !b.startDate.Instant? then Some("startDate")
    else if !b.endDate.Instant? then Some("endDate")
    else if !LocationOk(b.location) then Some("location")
    else None
  }

  /** `EventSchema.partial()`: the first present field that fails. */
  function UpdateIssue(b: EventBody): (r: Option<string>)
    ensures r.None? <==>
              (b.title.Missing? || Filled(b.title)) && (b.description.Missing? || Filled(b.description))
              && !b.clubId.NotWhole? && !b.startDate.InvalidDate? && !b.endDate.InvalidDate? && LocationOk(b.location)
  {
    if !(b.title.Missing? || Filled(b.title)) then Some("title")
    else if !(b.description.Missing? || Filled(b.description)) then Some("description")
    else if b.clubId.NotWhole? then Some("clubId")
    else if b.startDate.InvalidDate? then Some("startDate")
    else if b.endDate.InvalidDate? then Some("endDate")
    else if !LocationOk(b.location) then Some("location")
    else None
  }

  /** The event a valid create body describes, with the uploaded image. */
  function NewEvent(b: EventBody, upload: Option<string>): EventData
    requires CreateIssue(b).None?
  {
    EventData(b.title.s, b.description.s, b.clubId.n, b.startDate.t, b.endDate.t, LocationGiven(b.location), upload)
  }

  /**
   * `POST /events`: a body the schema rejects answers 400 and stores
   * nothing; otherwise the event is stored with the uploaded file's path
   * as its image. The schema does not compare the two dates.
   */
  method Create(db: Db, body: EventBody, upload: Option<string>, now: int) returns (reply: Reply<Row<EventData>>)
    requires db.Valid()
    modifies db.events
    ensures db.Valid()
    ensures CreateIssue(body).Some? ==> reply == BadInput(CreateIssue(body).value) && db.events.rows == old(db.events.rows)
    ensures CreateIssue(body).None? ==>
              var row := Row(old(db.events.nextId), now, NewEvent(body, upload));
              db.events.rows == old(db.events.rows) + [row] && reply == Created(row)
  {
    var issue := CreateIssue(body);
    if issue.Some? {
      return BadInput(issue.value);
    }
    var row := db.events.Insert(NewEvent(body, upload), now);
    reply := Created(row);
  }

  /** The fields `PUT /events/:id` writes: each given one, and the image only when there is an upload. */
  function Patched(cur: EventData, b: EventBody, upload: Option<string>): (d: EventData)
    requires UpdateIssue(b).None?
    ensures upload.None? ==> d.image == cur.image
    ensures upload.Some? ==> d.image == upload
  {
    EventData(
      if b.title.Str? then b.title.s else cur.title,
      if b.description.Str? then b.description.s else cur.description,
      if b.clubId.Whole? then b.clubId.n else cur.clubId,
      if b.startDate.Instant? then b.startDate.t else cur.startDate,
      if b.endDate.Instant? then b.endDate.t else cur.endDate,
      if b.location.Str? then Some(b.location.s) else cur.location,
      if upload.Some? then upload else cur.image)
  }

  /** An empty body without an upload changes nothing. */
  lemma EmptyPatch(cur: EventData)
    ensures Patched(cur, EventBody(Missing, Missing, Unsent, NoField, NoField, Missing), None) == cur
  {
  }

  /**
   * `PUT /events/:id`: validation first (400), then the update: a
   * non-integer id answers 500, a missing event 404 (P2025), otherwise
   * the patched event is written and returned.
   */
  method Update(db: Db, id: Option<int>, body: EventBody, upload: Option<string>) returns (reply: Reply<Row<EventData>>)
    requires db.Valid()
    modifies db.events
    ensures db.Valid()
    ensures !reply.Ok? ==> db.events.rows == old(db.events.rows)
    ensures UpdateIssue(body).Some? ==> reply == BadInput(UpdateIssue(body).value)
    ensures UpdateIssue(body).None? && id.None? ==> reply == Fail(500, ServerError)
    ensures UpdateIssue(body).None? && id.Some? && Find(old(db.events.rows), id.value).None? ==>
              reply == Fail(404, EventNotFound)
    ensures UpdateIssue(body).None? && id.Some? && Find(old(db.events.rows), id.value).Some? ==>
              var cur := Find(old(db.events.rows), id.value).value;
              var data := Patched(cur.data, body, upload);
              reply == Ok(Row(cur.id, cur.createdAt, data)) && db.events.rows == Replaced(old(db.events.rows), cur.id, data)
  {
    var issue := UpdateIssue(body);
    if issue.Some? {
      return BadInput(issue.value);
    }
    if id.None? {
      return Fail(500, ServerError);
    }
    var cur := Find(db.events.rows, id.value);
    if cur.None? {
      return Fail(404, EventNotFound);
    }
    var data := Patched(cur.value.data, body, upload);
    var found := db.events.Update(id.value, data);
    reply := Ok(Row(cur.value.id, cur.value.createdAt, data));
  }

  /** `DELETE /events/:id`: 204 and exactly that event gone, 404 when absent, 500 for a non-integer id. */
  method Delete(db: Db, id: Option<int>) returns (reply: Reply<()>)
    requires db.Valid()
    modifies db.events
    ensures db.Valid()
    ensures id.None? ==> reply == Fail(500, ServerError) && db.events.rows == old(db.events.rows)
    ensures id.Some? && Find(old(db.events.rows), id.value).None? ==>
              reply == Fail(404, EventNotFound) && db.events.rows == old(db.events.rows)
    ensures id.Some? && Find(old(db.events.rows), id.value).Some? ==>
              && reply == NoContent
              && db.events.rows == Without(old(db.events.rows), id.value)
              && |db.events.rows| == |old(db.events.rows)| - 1
  {
    if id.None? {
      return Fail(500, ServerError);
    }
    if Find(db.events.rows, id.value).Some? {
      DeleteRemovesOne(db.events.rows, id.value);
    }
    var found := db.events.Delete(id.value);
    if !found {
      return Fail(404, EventNotFound);
    }
    reply := NoContent;
  }
}
