/**
 * The account administration endpoints of backend/src/routes/users.ts:
 * a paged, searchable list and a by-id read for any signed-in caller,
 * and create / update / delete for administrators.
 */
module UserRoutes {
  import opened Common
  import opened Text
  import opened Listing
  import opened Store
  import opened Libraries
  import opened Http
  import opened AuthRoutes

  const EmailExists := "Email already exists"

  /** `select: { id, name, email, role, createdAt }`: an account without its password hash. */
  datatype UserSummary = UserSummary(id: int, name: string, email: string, role: Role, createdAt: int)

  function SummaryOf(row: Row<UserData>): (u: UserSummary)
    ensures u.id == row.id && u.name == row.data.name && u.email == row.data.email
    ensures u.role == row.data.role && u.createdAt == row.createdAt
  {
    UserSummary(row.id, row.data.name, row.data.email, row.data.role, row.createdAt)
  }

  function Summaries(rows: seq<Row<UserData>>): (r: seq<UserSummary>)
    ensures |r| == |rows| && forall i :: 0 <= i < |rows| ==> r[i] == SummaryOf(rows[i])
  {
    seq(|rows|, i requires 0 <= i < |rows| => SummaryOf(rows[i]))
  }

  /** The list's `where`: everything for an empty search, else a name or email containing it (case-sensitive). */
  predicate MatchesSearch(search: string, u: UserData) {
    search == [] || Contains(u.name, search) || Contains(u.email, search)
  }

  function SearchFilter(search: string): Row<UserData> -> bool {
    (row: Row<UserData>) => MatchesSearch(search, row.data)
  }

  /**
   * `GET /users`: the accounts matching the search, newest first, page
   * `page` of `limit` rows (defaults 1 and 10), beside the number of all
   * matches. A NaN or negative paging answers 500.
   */
  function List(users: seq<Row<UserData>>, page: NumParam, limit: NumParam, search: string): (r: Reply<Page<UserSummary>>)
    ensures r.Ok? || r == Fail(500, ServerError)
    ensures r.Ok? <==> PagingOf(page, limit, 10).Some?
    ensures r.Ok? ==> r.body.total == |Filter(users, SearchFilter(search))|
    ensures r.Ok? ==> |r.body.rows| <= PagingOf(page, limit, 10).value.take
    ensures r.Ok? ==> var paging := PagingOf(page, limit, 10).value;
              r.body.rows == Summaries(Window(Ordered(users, SearchFilter(search), CreatedAt, Desc), paging.skip, paging.take))
    ensures r.Ok? ==> forall i :: 0 <= i < |r.body.rows| ==>
              exists j :: 0 <= j < |users| && r.body.rows[i] == SummaryOf(users[j]) && MatchesSearch(search, users[j].data)
    ensures r.Ok? ==> forall i, j :: 0 <= i < j < |r.body.rows| ==> r.body.rows[i].createdAt >= r.body.rows[j].createdAt
  {
    match PagingOf(page, limit, 10)
    case None => Fail(500, ServerError)
    case Some(paging) =>
      var p := Listing.List(users, SearchFilter(search), CreatedAt, Desc, paging.skip, paging.take);
      ListIsWindow(users, SearchFilter(search), CreatedAt, Desc, paging.skip, paging.take);
      ListedSummaries(users, search, paging.skip, paging.take);
      Ok(Page(Summaries(p.rows), p.total))
  }

  /** The summaries on a list page are of matching accounts of the table, newest first. */
  lemma ListedSummaries(users: seq<Row<UserData>>, search: string, skip: nat, take: nat)
    ensures var rows := Summaries(Window(Ordered(users, SearchFilter(search), CreatedAt, Desc), skip, take));
      && (forall i :: 0 <= i < |rows| ==>
            exists j :: 0 <= j < |users| && rows[i] == SummaryOf(users[j]) && MatchesSearch(search, users[j].data))
      && (forall i, j :: 0 <= i < j < |rows| ==> rows[i].createdAt >= rows[j].createdAt)
  {
    var ordered := Ordered(users, SearchFilter(search), CreatedAt, Desc);
    var w := Window(ordered, skip, take);
    var rows := Summaries(w);
    forall i | 0 <= i < |rows|
      ensures exists j :: 0 <= j < |users| && rows[i] == SummaryOf(users[j]) && MatchesSearch(search, users[j].data)
    {
      assert w[i] == ordered[skip + i];
      var j :| 0 <= j < |users| && users[j] == w[i];
    }
    forall i, j | 0 <= i < j < |rows|
      ensures rows[i].createdAt >= rows[j].createdAt
    {
      assert w[i] == ordered[skip + i] && w[j] == ordered[skip + j];
    }
  }

  /** An empty search lists every account: `total` is the size of the table. */
  lemma EmptySearchCountsAll(users: seq<Row<UserData>>, page: NumParam, limit: NumParam)
    requires PagingOf(page, limit, 10).Some?
    ensures List(users, page, limit, "").body.total == |users|
  {
    FilterAll(users, SearchFilter(""));
  }

  /** `GET /users/:id`: the account without its hash, 404 when absent; a non-integer id throws unhandled. */
  function Get(users: seq<Row<UserData>>, id: Option<int>): (r: Reply<UserSummary>)
    ensures r == Unhandled <==> id.None?
    ensures r == Fail(404, UserNotFound) <==> id.Some? && Find(users, id.value).None?
    ensures r.Ok? ==> r.body.id == id.value && exists j :: 0 <= j < |users| && r.body == SummaryOf(users[j])
    ensures id.Some? && Find(users, id.value).Some? ==> r == Ok(SummaryOf(Find(users, id.value).value))
  {
    match id
    case None => Unhandled
    case Some(n) =>
      match Find(users, n)
      case None => Fail(404, UserNotFound)
      case Some(row) =>
        var j :| 0 <= j < |users| && users[j] == row;
        Ok(SummaryOf(row))
  }

  /** A read after an update sees the new fields, with the id and creation time kept. */
  lemma GetAfterUpdate(users: seq<Row<UserData>>, id: int, data: UserData)
    requires Find(users, id).Some?
    ensures Get(Replaced(users, id, data), Some(id)) == Ok(SummaryOf(Row(id, Find(users, id).value.createdAt, data)))
  {
    FindAfterUpdate(users, id, data, id);
  }

  /** A read after a create under a fresh id answers the new account's summary. */
  lemma GetAfterCreate(users: seq<Row<UserData>>, next: int, now: int, data: UserData)
    requires forall i :: 0 <= i < |users| ==> users[i].id < next
    ensures Get(users + [Row(next, now, data)], Some(next)) == Ok(SummaryOf(Row(next, now, data)))
  {
    FindAfterInsert(users, Row(next, now, data), next);
  }

  /** A read after a delete answers 404. */
  lemma GetAfterDelete(users: seq<Row<UserData>>, id: int)
    ensures Get(Without(users, id), Some(id)) == Fail(404, UserNotFound)
  {
    DeleteRemovesId(users, id);
  }

  /** `role: z.enum(['ADMIN', 'USER']).optional()`: absent, or one of the two names. */
  predicate RoleOk(v: Json) { v.Missing? || v == Str("ADMIN") || v == Str("USER") }

  /** The role a valid role field names, if any. */
  function RoleGiven(v: Json): (r: Option<Role>)
    requires RoleOk(v)
    ensures r.None? <==> v.Missing?
    ensures r == Some(ADMIN) <==> v == Str("ADMIN")
  {
    if v == Str("ADMIN") then Some(ADMIN) else if v == Str("USER") then Some(USER) else None
  }

  datatype CreateBody = CreateBody(name: Json, email: Json, password: Json, role: Json)

  /** `UserCreateSchema`: the first failing field in schema order. */
  function CreateIssue(libs: Libs, b: CreateBody): (r: Option<string>)
    ensures r.None? <==> NameOk(b.name) && EmailOk(libs, b.email) && PasswordOk(b.password) && RoleOk(b.role)
    ensures r == Some("role") ==> NameOk(b.name) && EmailOk(libs, b.email) && PasswordOk(b.password)
  {
    if !NameOk(b.name) then Some("name")
    else if !EmailOk(libs, b.email) then Some("email")
    else if !PasswordOk(b.password) then Some("password")
    else if !RoleOk(b.role) then Some("role")
    else None
  }

  /**
   * `POST /users`: a body zod rejects answers 400 and stores nothing; a
   * taken email is refused by the store (P2002) and answers 409; otherwise
   * the account is stored with the hashed password and the given role,
   * USER when none is given.
   */
  method Create(db: Db, libs: Libs, body: CreateBody, now: int) returns (reply: Reply<PublicUser>)
    requires db.Valid()
    modifies db.users
    ensures db.Valid()
    ensures CreateIssue(libs, body).Some? ==>
              reply == BadInput(CreateIssue(libs, body).value) && db.users.rows == old(db.users.rows)
    ensures CreateIssue(libs, body).None? && FindByEmail(old(db.users.rows), body.email.s).Some? ==>
              reply == Fail(409, EmailExists) && db.users.rows == old(db.users.rows)
    ensures CreateIssue(libs, body).None? && FindByEmail(old(db.users.rows), body.email.s).None? ==>
              var data := UserData(body.name.s, body.email.s, libs.hash(body.password.s), RoleGiven(body.role).GetOr(USER));
              var row := Row(old(db.users.nextId), now, data);
              db.users.rows == old(db.users.rows) + [row] && reply == Created(PublicOf(row))
  {
    var issue := CreateIssue(libs, body);
    if issue.Some? {
      return BadInput(issue.value);
    }
    var hashed := libs.hash(body.password.s);
    var role := RoleGiven(body.role).GetOr(USER);
    var created := db.CreateUser(UserData(body.name.s, body.email.s, hashed, role), now);
    match created
    case Done(row) => reply := Created(PublicOf(row));
    case UniqueViolation => reply := Fail(409, EmailExists);
    case RecordNotFound => reply := Fail(500, ServerError);
  }

  datatype UpdateBody = UpdateBody(name: Json, email: Json, password: Json, role: Json)

  /** `UserCreateSchema`'s rules with every field optional: the first present field that fails. */
  function UpdateIssue(libs: Libs, b: UpdateBody): (r: Option<string>)
    ensures r.None? <==>
              && (b.name.Missing? || NameOk(b.name)) && (b.email.Missing? || EmailOk(libs, b.email))
              && (b.password.Missing? || PasswordOk(b.password)) && RoleOk(b.role)
  {
    if !(b.name.Missing? || NameOk(b.name)) then Some("name")
    else if !(b.email.Missing? || EmailOk(libs, b.email)) then Some("email")
    else if !(b.password.Missing? || PasswordOk(b.password)) then Some("password")
    else if !RoleOk(b.role) then Some("role")
    else None
  }

  /**
   * `updateData`: the given fields over the stored ones, the password
   * replaced by the hash of the new one when one is given.
   */
  function Patched(libs: Libs, cur: UserData, b: UpdateBody): (d: UserData)
    requires UpdateIssue(libs, b).None?
    ensures d.password == if b.password.Str? then libs.hash(b.password.s) else cur.password
  {
    UserData(
      if b.name.Str? then b.name.s else cur.name,
      if b.email.Str? then b.email.s else cur.email,
      if b.password.Str? then libs.hash(b.password.s) else cur.password,
      RoleGiven(b.role).GetOr(cur.role))
  }

  /** A field left out of the body keeps its stored value; a given one is written as sent (the password hashed). */
  lemma PatchedFields(libs: Libs, cur: UserData, b: UpdateBody)
    requires UpdateIssue(libs, b).None?
    ensures b.name.Missing? ==> Patched(libs, cur, b).name == cur.name
    ensures b.name.Str? ==> Patched(libs, cur, b).name == b.name.s
    ensures b.email.Missing? ==> Patched(libs, cur, b).email == cur.email
    ensures b.email.Str? ==> Patched(libs, cur, b).email == b.email.s
    ensures b.role.Missing? ==> Patched(libs, cur, b).role == cur.role
    ensures b.role == Str("ADMIN") ==> Patched(libs, cur, b).role == ADMIN
    ensures b.role == Str("USER") ==> Patched(libs, cur, b).role == USER
  {
  }

  /** An empty body changes nothing. */
  lemma EmptyPatch(libs: Libs, cur: UserData)
    ensures Patched(libs, cur, UpdateBody(Missing, Missing, Missing, Missing)) == cur
  {
  }

  /**
   * `PUT /users/:id`: validation first (400), then the store's update: a
   * non-integer id answers 500, a missing account 404 (P2025), an email
   * that belongs to another account 500 (P2002 is not caught here), and
   * otherwise the patched account is written and returned.
   */
  method Update(db: Db, libs: Libs, id: Option<int>, body: UpdateBody) returns (reply: Reply<PublicUser>)
    requires db.Valid()
    modifies db.users
    ensures db.Valid()
    ensures !reply.Ok? ==> db.users.rows == old(db.users.rows)
    ensures UpdateIssue(libs, body).Some? ==> reply == BadInput(UpdateIssue(libs, body).value)
    ensures UpdateIssue(libs, body).None? && id.None? ==> reply == Fail(500, ServerError)
    ensures UpdateIssue(libs, body).None? && id.Some? && Find(old(db.users.rows), id.value).None? ==>
              reply == Fail(404, UserNotFound)
    ensures UpdateIssue(libs, body).None? && id.Some? && Find(old(db.users.rows), id.value).Some? ==>
              var cur := Find(old(db.users.rows), id.value).value;
              var data := Patched(libs, cur.data, body);
              if EmailTakenByOther(old(db.users.rows), data.email, id.value) then reply == Fail(500, ServerError)
              else reply == Ok(PublicOf(Row(cur.id, cur.createdAt, data)))
                   && db.users.rows == Replaced(old(db.users.rows), id.value, data)
  {
    var issue := UpdateIssue(libs, body);
    if issue.Some? {
      return BadInput(issue.value);
    }
    if id.None? {
      return Fail(500, ServerError);
    }
    var cur := Find(db.users.rows, id.value);
    if cur.None? {
      return Fail(404, UserNotFound);
    }
    var data := Patched(libs, cur.value.data, body);
    var written := db.UpdateUser(id.value, data);
    match written
    case Done(_) => reply := Ok(PublicOf(Row(cur.value.id, cur.value.createdAt, data)));
    case RecordNotFound => reply := Fail(404, UserNotFound);
    case UniqueViolation => reply := Fail(500, ServerError);
  }

  /** `DELETE /users/:id`: 204 and exactly that account gone, 404 when absent, 500 for a non-integer id. */
  method Delete(db: Db, id: Option<int>) returns (reply: Reply<()>)
    requires db.Valid()
    modifies db.users
    ensures db.Valid()
    ensures id.None? ==> reply == Fail(500, ServerError) && db.users.rows == old(db.users.rows)
    ensures id.Some? && Find(old(db.users.rows), id.value).None? ==>
              reply == Fail(404, UserNotFound) && db.users.rows == old(db.users.rows)
    ensures id.Some? && Find(old(db.users.rows), id.value).Some? ==>
              && reply == NoContent
              && db.users.rows == Without(old(db.users.rows), id.value)
              && |db.users.rows| == |old(db.users.rows)| - 1
  {
    if id.None? {
      return Fail(500, ServerError);
    }
    if Find(db.users.rows, id.value).Some? {
      DeleteRemovesOne(db.users.rows, id.value);
    }
    WithoutKeepsEmailsUnique(db.users.rows, id.value);
    var found := db.users.Delete(id.value);
    if !found {
      return Fail(404, UserNotFound);
    }
    reply := NoContent;
  }
}
