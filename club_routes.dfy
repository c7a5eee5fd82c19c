/**
 * The club endpoints of backend/src/routes/clubs.ts: a public paged list
 * with event and member counts, a public read, administrator create /
 * update / delete with an optional uploaded image, and the membership
 * sub-resource (list, add, remove) plus a club's events.
 */
module ClubRoutes {
  import opened Common
  import opened Text
  import opened Listing
  import opened Store
  import opened Libraries
  import opened Http

  const ClubNotFound := "Club not found"

  /** A club as the list sends it: the stored fields plus its event and member counts. */
  datatype ClubView = ClubView(
    id: int, name: string, description: string, image: Option<string>, facebookUrl: Option<string>,
    createdAt: int, eventCount: nat, memberCount: nat)

  /** The events that belong to club `c`. */
  function OfClub(c: int): Row<EventData> -> bool {
    (e: Row<EventData>) => e.data.clubId == c
  }

  /** The memberships of club `c`. */
  function MemberOfClub(c: int): Row<MemberData> -> bool {
    (m: Row<MemberData>) => m.data.clubId == c
  }

  /** The membership of user `u` in club `c`. */
  function Membership(c: int, u: int): Row<MemberData> -> bool {
    (m: Row<MemberData>) => m.data.clubId == c && m.data.userId == u
  }

  /** `_count: { events, members }` mapped to `eventCount` and `memberCount`. */
  function ViewOf(row: Row<ClubData>, events: seq<Row<EventData>>, members: seq<Row<MemberData>>): (v: ClubView)
    ensures v.id == row.id && v.createdAt == row.createdAt
    ensures v.name == row.data.name && v.description == row.data.description
    ensures v.image == row.data.image && v.facebookUrl == row.data.facebookUrl
    ensures v.eventCount == |Filter(events, OfClub(row.id))| && v.memberCount == |Filter(members, MemberOfClub(row.id))|
  {
    ClubView(row.id, row.data.name, row.data.description, row.data.image, row.data.facebookUrl, row.createdAt,
             |Filter(events, OfClub(row.id))|, |Filter(members, MemberOfClub(row.id))|)
  }

  function Views(rows: seq<Row<ClubData>>, events: seq<Row<EventData>>, members: seq<Row<MemberData>>): (r: seq<ClubView>)
    ensures |r| == |rows| && forall i :: 0 <= i < |rows| ==> r[i] == ViewOf(rows[i], events, members)
  {
    seq(|rows|, i requires 0 <= i < |rows| => ViewOf(rows[i], events, members))
  }

  /** The list's `where`: every club for an empty search, else those whose name contains it. */
  function NameFilter(search: string): Row<ClubData> -> bool {
    (c: Row<ClubData>) => search == [] || Contains(c.data.name, search)
  }

  /**
   * `GET /clubs`: the clubs matching the search, newest first, one page,
   * with the number of all matches; each carries the number of its events
   * and members. There is no try/catch, so a NaN or negative paging
   * throws unhandled.
   */
  function List(clubs: seq<Row<ClubData>>, events: seq<Row<EventData>>, members: seq<Row<MemberData>>,
                page: NumParam, limit: NumParam, search: string): (r: Reply<Page<ClubView>>)
    ensures r.Ok? || r == Unhandled
    ensures r.Ok? <==> PagingOf(page, limit, 10).Some?
    ensures r.Ok? ==> r.body == ClubsPage(clubs, events, members, search, PagingOf(page, limit, 10).value)
  {
    match PagingOf(page, limit, 10)
    case None => Unhandled
    case Some(paging) => Ok(ClubsPage(clubs, events, members, search, paging))
  }

  /**
   * The page `GET /clubs` sends for a paging the ORM accepts: the views of
   * the run of matching clubs, newest first, that starts at `skip` and holds
   * at most `take` of them, beside the number of all matches.
   */
  function ClubsPage(clubs: seq<Row<ClubData>>, events: seq<Row<EventData>>, members: seq<Row<MemberData>>,
                     search: string, paging: Paging): (pg: Page<ClubView>)
    ensures pg.total == |Filter(clubs, NameFilter(search))|
    ensures pg.rows == Views(Window(Ordered(clubs, NameFilter(search), CreatedAt, Desc), paging.skip, paging.take), events, members)
    ensures forall i :: 0 <= i < |pg.rows| ==> ViewOfMatch(pg.rows[i], clubs, events, members, search)
    ensures forall i, j :: 0 <= i < j < |pg.rows| ==> pg.rows[i].createdAt >= pg.rows[j].createdAt
  {
    var p := Listing.List(clubs, NameFilter(search), CreatedAt, Desc, paging.skip, paging.take);
    ListIsWindow(clubs, NameFilter(search), CreatedAt, Desc, paging.skip, paging.take);
    ListedViews(clubs, events, members, search, p.rows);
    Page(Views(p.rows, events, members), p.total)
  }

  /** `v` is the view of a club of `clubs` that the search matches. */
  ghost predicate ViewOfMatch(v: ClubView, clubs: seq<Row<ClubData>>, events: seq<Row<EventData>>,
                              members: seq<Row<MemberData>>, search: string) {
    exists j :: 0 <= j < |clubs| && NameFilter(search)(clubs[j]) && v == ViewOf(clubs[j], events, members)
  }

  /** The views of listed clubs are views of matching clubs, newest first. */
  lemma ListedViews(clubs: seq<Row<ClubData>>, events: seq<Row<EventData>>, members: seq<Row<MemberData>>,
                    search: string, rows: seq<Row<ClubData>>)
    requires forall i :: 0 <= i < |rows| ==> rows[i] in clubs && NameFilter(search)(rows[i])
    requires SortedBy(rows, CreatedAt, Desc)
    ensures var v := Views(rows, events, members);
            forall i :: 0 <= i < |v| ==> ViewOfMatch(v[i], clubs, events, members, search)
    ensures var v := Views(rows, events, members);
            forall i, j :: 0 <= i < j < |v| ==> v[i].createdAt >= v[j].createdAt
  {
    var v := Views(rows, events, members);
    forall i | 0 <= i < |v| ensures ViewOfMatch(v[i], clubs, events, members, search) {
      var j :| 0 <= j < |clubs| && clubs[j] == rows[i];
      assert NameFilter(search)(clubs[j]) && v[i] == ViewOf(clubs[j], events, members);
    }
    forall i, j | 0 <= i < j < |v| ensures v[i].createdAt >= v[j].createdAt {
      assert InOrder(Desc, CreatedAt(rows[i]), CreatedAt(rows[j]));
    }
  }

  /** `GET /clubs/:id`: the stored club, 404 when absent; a non-integer id throws unhandled. */
  function Get(clubs: seq<Row<ClubData>>, id: Option<int>): (r: Reply<Row<ClubData>>)
    ensures r == Unhandled <==> id.None?
    ensures r == Fail(404, ClubNotFound) <==> id.Some? && Find(clubs, id.value).None?
    ensures r.Ok? ==> r.body in clubs && r.body.id == id.value
    ensures id.Some? && Find(clubs, id.value).Some? ==> r == Ok(Find(clubs, id.value).value)
  {
    match id
    case None => Unhandled
    case Some(n) =>
      match Find(clubs, n)
      case None => Fail(404, ClubNotFound)
      case Some(row) => Ok(row)
  }

  /** A read after a create under a fresh id answers the new row. */
  lemma GetAfterCreate(clubs: seq<Row<ClubData>>, next: int, now: int, data: ClubData)
    requires forall i :: 0 <= i < |clubs| ==> clubs[i].id < next
    ensures Get(clubs + [Row(next, now, data)], Some(next)) == Ok(Row(next, now, data))
  {
    FindAfterInsert(clubs, Row(next, now, data), next);
  }

  /** A read after an update answers the new fields under the old id and creation time. */
  lemma GetAfterUpdate(clubs: seq<Row<ClubData>>, id: int, data: ClubData)
    requires Find(clubs, id).Some?
    ensures Get(Replaced(clubs, id, data), Some(id)) == Ok(Row(id, Find(clubs, id).value.createdAt, data))
  {
    FindAfterUpdate(clubs, id, data, id);
  }

  /** A read after a delete answers 404. */
  lemma GetAfterDelete(clubs: seq<Row<ClubData>>, id: int)
    ensures Get(Without(clubs, id), Some(id)) == Fail(404, ClubNotFound)
  {
    DeleteRemovesId(clubs, id);
  }

  datatype ClubBody = ClubBody(name: Json, description: Json, facebookUrl: Json)

  predicate Filled(v: Json) { v.Str? && |v.s| >= 1 }

  /**
   * `z.string().url().optional().or(z.literal('').transform(() => undefined))`:
   * absent, a URL, or the empty string.
   */
  predicate FacebookOk(libs: Libs, v: Json) {
    v.Missing? || v == Str("") || (v.Str? && libs.isUrl(v.s))
  }

  /**
   * The value the schema produces for `facebookUrl`: a URL is kept, absent
   * and "" both give none (zod's URL check refuses the empty string, so ""
   * always reaches the second alternative).
   */
  function FacebookGiven(libs: Libs, v: Json): (r: Option<string>)
    requires FacebookOk(libs, v)
    ensures r.Some? ==> v == Str(r.value) && r.value != "" && libs.isUrl(r.value)
    ensures r.None? <==> v.Missing? || v == Str("")
  {
    if v.Str? && v.s != "" then Some(v.s) else None
  }

  /** `ClubSchema`: the first failing field in schema order. */
  function CreateIssue(libs: Libs, b: ClubBody): (r: Option<string>)
    ensures r.None? <==> Filled(b.name) && Filled(b.description) && FacebookOk(libs, b.facebookUrl)
  {
    if !Filled(b.name) then Some("name")
    else if !Filled(b.description) then Some("description")
    else if !FacebookOk(libs, b.facebookUrl) then Some("facebookUrl")
    else None
  }

  /** `ClubSchema.partial()`: the first present field that fails. */
  function UpdateIssue(libs: Libs, b: ClubBody): (r: Option<string>)
    ensures r.None? <==>
              (b.name.Missing? || Filled(b.name)) && (b.description.Missing? || Filled(b.description))
              && FacebookOk(libs, b.facebookUrl)
  {
    if !(b.name.Missing? || Filled(b.name)) then Some("name")
    else if !(b.description.Missing? || Filled(b.description)) then Some("description")
    else if !FacebookOk(libs, b.facebookUrl) then Some("facebookUrl")
    else None
  }

  /**
   * `POST /clubs`: a body the schema rejects answers 400 and stores
   * nothing; otherwise the club is stored with the uploaded file's path as
   * its image (none without an upload). `upload` is the path the upload
   * middleware stored the file under.
   */
  method Create(db: Db, libs: Libs, body: ClubBody, upload: Option<string>, now: int) returns (reply: Reply<Row<ClubData>>)
    requires db.Valid()
    modifies db.clubs
    ensures db.Valid()
    ensures CreateIssue(libs, body).Some? ==>
              reply == BadInput(CreateIssue(libs, body).value) && db.clubs.rows == old(db.clubs.rows)
    ensures CreateIssue(libs, body).None? ==>
              var row := Row(old(db.clubs.nextId), now,
                             ClubData(body.name.s, body.description.s, upload, FacebookGiven(libs, body.facebookUrl)));
              db.clubs.rows == old(db.clubs.rows) + [row] && reply == Created(row)
  {
    var issue := CreateIssue(libs, body);
    if issue.Some? {
      return BadInput(issue.value);
    }
    var data := ClubData(body.name.s, body.description.s, upload, FacebookGiven(libs, body.facebookUrl));
    var row := db.clubs.Insert(data, now);
    reply := Created(row);
  }

  /**
   * The fields `PUT /clubs/:id` writes: the given name and description, a
   * given URL (absent and "" both leave the stored one), and the uploaded
   * image only when there is an upload.
   */
  function Patched(libs: Libs, cur: ClubData, b: ClubBody, upload: Option<string>): (d: ClubData)
    requires UpdateIssue(libs, b).None?
    ensures upload.None? ==> d.image == cur.image
    ensures upload.Some? ==> d.image == upload
  {
    ClubData(
      if b.name.Str? then b.name.s else cur.name,
      if b.description.Str? then b.description.s else cur.description,
      if upload.Some? then upload else cur.image,
      match FacebookGiven(libs, b.facebookUrl) case Some(u) => Some(u) case None => cur.facebookUrl)
  }

  /** Fields left out of the body, or a facebookUrl sent as "", keep their stored values. */
  lemma PatchedKeepsUnsent(libs: Libs, cur: ClubData, b: ClubBody, upload: Option<string>)
    requires UpdateIssue(libs, b).None?
    ensures b.name.Missing? ==> Patched(libs, cur, b, upload).name == cur.name
    ensures b.description.Missing? ==> Patched(libs, cur, b, upload).description == cur.description
    ensures b.facebookUrl.Missing? || b.facebookUrl == Str("") ==> Patched(libs, cur, b, upload).facebookUrl == cur.facebookUrl
    ensures b == ClubBody(Missing, Missing, Missing) && upload.None? ==> Patched(libs, cur, b, upload) == cur
  {
  }

  /**
   * `PUT /clubs/:id`: validation first (400), then the update: a
   * non-integer id answers 500, a missing club 404 (P2025), otherwise the
   * patched club is written and returned.
   */
  method Update(db: Db, libs: Libs, id: Option<int>, body: ClubBody, upload: Option<string>) returns (reply: Reply<Row<ClubData>>)
    requires db.Valid()
    modifies db.clubs
    ensures db.Valid()
    ensures !reply.Ok? ==> db.clubs.rows == old(db.clubs.rows)
    ensures UpdateIssue(libs, body).Some? ==> reply == BadInput(UpdateIssue(libs, body).value)
    ensures UpdateIssue(libs, body).None? && id.None? ==> reply == Fail(500, ServerError)
    ensures UpdateIssue(libs, body).None? && id.Some? && Find(old(db.clubs.rows), id.value).None? ==>
              reply == Fail(404, ClubNotFound)
    ensures UpdateIssue(libs, body).None? && id.Some? && Find(old(db.clubs.rows), id.value).Some? ==>
              var cur := Find(old(db.clubs.rows), id.value).value;
              var data := Patched(libs, cur.data, body, upload);
              reply == Ok(Row(cur.id, cur.createdAt, data)) && db.clubs.rows == Replaced(old(db.clubs.rows), cur.id, data)
  {
    var issue := UpdateIssue(libs, body);
    if issue.Some? {
      return BadInput(issue.value);
    }
    if id.None? {
      return Fail(500, ServerError);
    }
    var cur := Find(db.clubs.rows, id.value);
    if cur.None? {
      return Fail(404, ClubNotFound);
    }
    var data := Patched(libs, cur.value.data, body, upload);
    var found := db.clubs.Update(id.value, data);
    reply := Ok(Row(cur.value.id, cur.value.createdAt, data));
  }

  /** `DELETE /clubs/:id`: 204 and exactly that club gone, 404 when absent, 500 for a non-integer id. */
  method Delete(db: Db, id: Option<int>) returns (reply: Reply<()>)
    requires db.Valid()
    modifies db.clubs
    ensures db.Valid()
    ensures id.None? ==> reply == Fail(500, ServerError) && db.clubs.rows == old(db.clubs.rows)
    ensures id.Some? && Find(old(db.clubs.rows), id.value).None? ==>
              reply == Fail(404, ClubNotFound) && db.clubs.rows == old(db.clubs.rows)
    ensures id.Some? && Find(old(db.clubs.rows), id.value).Some? ==>
              && reply == NoContent
              && db.clubs.rows == Without(old(db.clubs.rows), id.value)
              && |db.clubs.rows| == |old(db.clubs.rows)| - 1
  {
    if id.None? {
      return Fail(500, ServerError);
    }
    if Find(db.clubs.rows, id.value).Some? {
      DeleteRemovesOne(db.clubs.rows, id.value);
    }
    var found := db.clubs.Delete(id.value);
    if !found {
      return Fail(404, ClubNotFound);
    }
    reply := NoContent;
  }

  /** `select: { id, name, email }` of a member's account. */
  datatype UserBrief = UserBrief(id: int, name: string, email: string)

  /** A membership as the members list sends it; `joinedAt` is the row's creation time. */
  datatype MemberView = MemberView(id: int, clubId: int, userId: int, role: string, user: Option<UserBrief>, joinedAt: int)

  function MemberViewOf(m: Row<MemberData>, users: seq<Row<UserData>>): (v: MemberView)
    ensures v.id == m.id && v.clubId == m.data.clubId && v.userId == m.data.userId && v.role == m.data.role
    ensures v.user.Some? <==> Find(users, m.data.userId).Some?
    ensures v.user.Some? ==> v.user.value.id == m.data.userId
    ensures v.joinedAt == m.createdAt
    ensures var u := Find(users, m.data.userId);
              u.Some? ==> v.user == Some(UserBrief(u.value.id, u.value.data.name, u.value.data.email))
  {
    var u := Find(users, m.data.userId);
    MemberView(m.id, m.data.clubId, m.data.userId, m.data.role,
               if u.Some? then Some(UserBrief(u.value.id, u.value.data.name, u.value.data.email)) else None,
               m.createdAt)
  }

  /** `GET /clubs/:clubId/members`: the club's memberships in store order, each with its account. */
  function Members(members: seq<Row<MemberData>>, users: seq<Row<UserData>>, clubId: Option<int>): (r: Reply<seq<MemberView>>)
    ensures r == Unhandled <==> clubId.None?
    ensures r.Ok? || r == Unhandled
    ensures r.Ok? ==> |r.body| == |Filter(members, MemberOfClub(clubId.value))|
    ensures r.Ok? ==> forall i :: 0 <= i < |r.body| ==> r.body[i].clubId == clubId.value
    ensures r.Ok? ==> forall i :: 0 <= i < |members| && members[i].data.clubId == clubId.value ==>
              MemberViewOf(members[i], users) in r.body
  {
    match clubId
    case None => Unhandled
    case Some(c) =>
      var mine := Filter(members, MemberOfClub(c));
      var views := seq(|mine|, i requires 0 <= i < |mine| => MemberViewOf(mine[i], users));
      assert forall i :: 0 <= i < |members| && members[i].data.clubId == c ==>
        exists k :: 0 <= k < |mine| && mine[k] == members[i] && views[k] == MemberViewOf(members[i], users);
      Ok(views)
  }

  datatype MemberBody = MemberBody(userId: Json, role: Json)

  /** `z.object({ userId: z.number(), role: z.string().optional() })`: any number, whole or not. */
  function MemberIssue(b: MemberBody): (r: Option<string>)
    ensures r.None? <==> (b.userId.Int? || b.userId.Frac?) && (b.role.Missing? || b.role.Str?)
  {
    if !(b.userId.Int? || b.userId.Frac?) then Some("userId")
    else if !(b.role.Missing? || b.role.Str?) then Some("role")
    else None
  }

  /** `role || 'member'`: an absent or empty role is stored as "member". */
  function RoleOrMember(v: Json): (r: string)
    ensures r == if v.Str? && v.s != "" then v.s else "member"
    ensures r != ""
  {
    if v.Str? && v.s != "" then v.s else "member"
  }

  /**
   * `POST /clubs/:clubId/members`: a body the schema rejects answers 400;
   * a non-integer club id, or a fractional user id the schema lets through
   * but the integer column refuses, answers 500; otherwise one membership
   * is added with the given role, "member" when none is given.
   */
  method AddMember(db: Db, clubId: Option<int>, body: MemberBody, now: int) returns (reply: Reply<Row<MemberData>>)
    requires db.Valid()
    modifies db.members
    ensures db.Valid()
    ensures MemberIssue(body).Some? ==> reply == BadInput(MemberIssue(body).value) && db.members.rows == old(db.members.rows)
    ensures MemberIssue(body).None? && (clubId.None? || body.userId.Frac?) ==>
              reply == Fail(500, ServerError) && db.members.rows == old(db.members.rows)
    ensures MemberIssue(body).None? && clubId.Some? && body.userId.Int? ==>
              var row := Row(old(db.members.nextId), now, MemberData(clubId.value, body.userId.n, RoleOrMember(body.role)));
              db.members.rows == old(db.members.rows) + [row] && reply == Created(row)
  {
    var issue := MemberIssue(body);
    if issue.Some? {
      return BadInput(issue.value);
    }
    if clubId.None? || body.userId.Frac? {
      return Fail(500, ServerError);
    }
    var row := db.members.Insert(MemberData(clubId.value, body.userId.n, RoleOrMember(body.role)), now);
    reply := Created(row);
  }

  /**
   * `DELETE /clubs/:clubId/members/:userId`: removes every membership of
   * that user in that club and answers 204, also when there was none.
   */
  method RemoveMember(db: Db, clubId: Option<int>, userId: Option<int>) returns (reply: Reply<()>)
    requires db.Valid()
    modifies db.members
    ensures db.Valid()
    ensures clubId.None? || userId.None? ==> reply == Fail(500, ServerError) && db.members.rows == old(db.members.rows)
    ensures clubId.Some? && userId.Some? ==>
              && reply == NoContent
              && db.members.rows == Filter(old(db.members.rows), NotMembership(clubId.value, userId.value))
              && forall i :: 0 <= i < |db.members.rows| ==> !Membership(clubId.value, userId.value)(db.members.rows[i])
  {
    if clubId.None? || userId.None? {
      return Fail(500, ServerError);
    }
    var removed := db.members.DeleteWhere(Membership(clubId.value, userId.value));
    assert NotMembership(clubId.value, userId.value) == (r: Row<MemberData>) => !Membership(clubId.value, userId.value)(r);
    reply := NoContent;
  }

  function NotMembership(c: int, u: int): Row<MemberData> -> bool {
    (r: Row<MemberData>) => !Membership(c, u)(r)
  }

  /** Removing a membership a second time changes nothing: the route is idempotent. */
  lemma RemoveMemberIdempotent(members: seq<Row<MemberData>>, c: int, u: int)
    ensures var once := Filter(members, NotMembership(c, u));
            Filter(once, NotMembership(c, u)) == once
  {
    FilterIdempotent(members, NotMembership(c, u));
  }

  /** Removing a membership leaves every other membership in place. */
  lemma RemoveMemberKeepsOthers(members: seq<Row<MemberData>>, c: int, u: int)
    ensures forall i :: 0 <= i < |members| && !(members[i].data.clubId == c && members[i].data.userId == u) ==>
              members[i] in Filter(members, NotMembership(c, u))
  {
    forall i | 0 <= i < |members| && !(members[i].data.clubId == c && members[i].data.userId == u)
      ensures members[i] in Filter(members, NotMembership(c, u))
    {
      assert !Membership(c, u)(members[i]);
      assert NotMembership(c, u)(members[i]);
    }
  }

  function StartDate(e: Row<EventData>): int { e.data.startDate }

  /**
   * `GET /clubs/:clubId/events` (and `GET /events/club/:clubId`, which is
   * the same query): the club's events, latest start first.
   */
  function ClubEvents(events: seq<Row<EventData>>, clubId: Option<int>): (r: Reply<seq<Row<EventData>>>)
    ensures r == Unhandled <==> clubId.None?
    ensures r.Ok? || r == Unhandled
    ensures r.Ok? ==> multiset(r.body) == multiset(Filter(events, OfClub(clubId.value)))
    ensures r.Ok? ==> forall i :: 0 <= i < |r.body| ==> r.body[i].data.clubId == clubId.value
    ensures r.Ok? ==> SortedBy(r.body, StartDate, Desc)
  {
    match clubId
    case None => Unhandled
    case Some(c) =>
      var mine := Filter(events, OfClub(c));
      var sorted := SortBy(mine, StartDate, Desc);
      SortKeepsRows(mine, StartDate, Desc);
      Ok(sorted)
  }
}
