/**
 * The account endpoints of backend/src/routes/auth.ts: `POST /register`
 * creates a USER account and signs a token for it, `POST /login` checks
 * an email and password against the stored hash, and `GET /me` returns
 * the stored account of the caller `requireAuth` identified.
 */
module AuthRoutes {
  import opened Common
  import opened Store
  import opened Libraries
  import opened Http
  import opened AuthMiddleware

  datatype RegisterBody = RegisterBody(name: Json, email: Json, password: Json)
  datatype LoginBody = LoginBody(email: Json, password: Json)

  /** An account as it is sent to clients: never the password hash. */
  datatype PublicUser = PublicUser(id: int, name: string, email: string, role: Role)

  /** `{ user, token }`. */
  datatype Session = Session(user: PublicUser, token: string)

  const EmailInUse := "Email already in use"
  const InvalidCredentials := "Invalid credentials"
  const UserNotFound := "User not found"

  /**
   * The role a registered account gets: register passes none, so the
   * column's default applies (the schema file is not part of this model;
   * the admin create route spells the same default out).
   */
  const DefaultRole := USER

  /** `z.string().min(1)`, `z.string().email()`, `z.string().min(6)`. */
  predicate NameOk(v: Json) { v.Str? && |v.s| >= 1 }
  predicate EmailOk(libs: Libs, v: Json) { v.Str? && libs.isEmail(v.s) }
  predicate PasswordOk(v: Json) { v.Str? && |v.s| >= 6 }

  /** The field zod reports first for `RegisterSchema`: the first failing one in schema order. */
  function RegisterIssue(libs: Libs, b: RegisterBody): (r: Option<string>)
    ensures r.None? <==> NameOk(b.name) && EmailOk(libs, b.email) && PasswordOk(b.password)
    ensures r == Some("name") <==> !NameOk(b.name)
    ensures r == Some("password") ==> NameOk(b.name) && EmailOk(libs, b.email)
  {
    if !NameOk(b.name) then Some("name")
    else if !EmailOk(libs, b.email) then Some("email")
    else if !PasswordOk(b.password) then Some("password")
    else None
  }

  /** The field zod reports first for `LoginSchema`. */
  function LoginIssue(libs: Libs, b: LoginBody): (r: Option<string>)
    ensures r.None? <==> EmailOk(libs, b.email) && PasswordOk(b.password)
    ensures r == Some("email") <==> !EmailOk(libs, b.email)
  {
    if !EmailOk(libs, b.email) then Some("email")
    else if !PasswordOk(b.password) then Some("password")
    else None
  }

  /** The `select: { id, name, email, role }` view of a stored row. */
  function PublicOf(row: Row<UserData>): (u: PublicUser)
    ensures u.id == row.id && u.name == row.data.name && u.email == row.data.email && u.role == row.data.role
  {
    PublicUser(row.id, row.data.name, row.data.email, row.data.role)
  }

  /** The row `register` stores: the bcrypt hash in place of the password, the default role. */
  function NewAccount(libs: Libs, name: string, email: string, password: string): UserData {
    UserData(name, email, libs.hash(password), DefaultRole)
  }

  /**
   * `POST /register`: a body zod rejects answers 400 and touches nothing;
   * an email already on file answers 409 and touches nothing; otherwise
   * one row is appended and the reply carries its public view and a token
   * for its id and role.
   */
  method Register(db: Db, libs: Libs, body: RegisterBody, now: int) returns (reply: Reply<Session>)
    requires db.Valid()
    modifies db.users
    ensures db.Valid()
    ensures RegisterIssue(libs, body).Some? ==>
              reply == BadInput(RegisterIssue(libs, body).value) && db.users.rows == old(db.users.rows)
    ensures RegisterIssue(libs, body).None? && FindByEmail(old(db.users.rows), body.email.s).Some? ==>
              reply == Fail(409, EmailInUse) && db.users.rows == old(db.users.rows)
    ensures RegisterIssue(libs, body).None? && FindByEmail(old(db.users.rows), body.email.s).None? ==>
              var row := Row(old(db.users.nextId), now, NewAccount(libs, body.name.s, body.email.s, body.password.s));
              && db.users.rows == old(db.users.rows) + [row]
              && reply == Ok(Session(PublicOf(row), SignToken(libs, row.id, DefaultRole, now)))
  {
    var issue := RegisterIssue(libs, body);
    if issue.Some? {
      return BadInput(issue.value);
    }
    var existing := FindByEmail(db.users.rows, body.email.s);
    if existing.Some? {
      return Fail(409, EmailInUse);
    }
    var hashed := libs.hash(body.password.s);
    var created := db.CreateUser(UserData(body.name.s, body.email.s, hashed, DefaultRole), now);
    if created.Done? {
      var user := PublicOf(created.value);
      var token := SignToken(libs, user.id, user.role, now);
      reply := Ok(Session(user, token));
    } else {
      reply := Fail(500, ServerError);
    }
  }

  /** Some stored account has this email and a hash this password matches. */
  ghost predicate Authorised(users: seq<Row<UserData>>, libs: Libs, email: string, password: string) {
    exists i :: 0 <= i < |users| && users[i].data.email == email && libs.compare(password, users[i].data.password)
  }

  /** With unique emails, the account `findUnique` returns is the only one the email can name. */
  lemma FoundByEmailIsOnly(users: seq<Row<UserData>>, email: string, i: int)
    requires UniqueEmails(users) && 0 <= i < |users| && users[i].data.email == email
    ensures FindByEmail(users, email) == Some(users[i])
  {
    var found := FindByEmail(users, email);
    var j :| 0 <= j < |users| && users[j] == found.value;
    assert users[j].data.email == users[i].data.email;
  }

  /**
   * `POST /login`: reads the store only. A body zod rejects answers 400;
   * an unknown email and a wrong password get one and the same 401, so the
   * reply does not tell which; a match answers with the account's public
   * view and a token for its stored id and role.
   */
  method Login(db: Db, libs: Libs, body: LoginBody, now: int) returns (reply: Reply<Session>)
    requires db.Valid()
    ensures reply.BadInput? <==> LoginIssue(libs, body).Some?
    ensures reply.BadInput? ==> reply.field == LoginIssue(libs, body).value
    ensures reply == Fail(401, InvalidCredentials) <==>
              LoginIssue(libs, body).None? && !Authorised(db.users.rows, libs, body.email.s, body.password.s)
    ensures reply.Ok? <==>
              LoginIssue(libs, body).None? && Authorised(db.users.rows, libs, body.email.s, body.password.s)
    ensures reply.Ok? ==>
              exists i :: 0 <= i < |db.users.rows| && db.users.rows[i].data.email == body.email.s
                && reply.body == Session(PublicOf(db.users.rows[i]),
                                         SignToken(libs, db.users.rows[i].id, db.users.rows[i].data.role, now))
  {
    var issue := LoginIssue(libs, body);
    if issue.Some? {
      return BadInput(issue.value);
    }
    var email, password := body.email.s, body.password.s;
    var user := FindByEmail(db.users.rows, email);
    if user.None? {
      return Fail(401, InvalidCredentials);
    }
    var row := user.value;
    var i :| 0 <= i < |db.users.rows| && db.users.rows[i] == row;
    var ok := libs.compare(password, row.data.password);
    if !ok {
      forall j | 0 <= j < |db.users.rows| && db.users.rows[j].data.email == email
        ensures !libs.compare(password, db.users.rows[j].data.password)
      {
        FoundByEmailIsOnly(db.users.rows, email, j);
      }
      return Fail(401, InvalidCredentials);
    }
    var token := SignToken(libs, row.id, row.data.role, now);
    reply := Ok(Session(PublicOf(row), token));
  }

  /**
   * `GET /me` after `requireAuth`: the caller's account as stored now
   * (its stored role, whatever role the token carried), or 404 when the
   * account no longer exists.
   */
  method Me(db: Db, caller: Identity) returns (reply: Reply<PublicUser>)
    ensures reply == Fail(404, UserNotFound) <==> Find(db.users.rows, caller.id).None?
    ensures reply.Ok? <==> Find(db.users.rows, caller.id).Some?
    ensures reply.Ok? ==> reply.body.id == caller.id
    ensures reply.Ok? ==> reply.body == PublicOf(Find(db.users.rows, caller.id).value)
  {
    var user := Find(db.users.rows, caller.id);
    if user.None? {
      return Fail(404, UserNotFound);
    }
    reply := Ok(PublicOf(user.value));
  }

  /** `router.get('/me', requireAuth, handler)`: the middleware's 401, or the handler's reply. */
  method MeRoute(db: Db, req: Request, verify: string -> Verified) returns (reply: Reply<PublicUser>)
    modifies req
    ensures match Authenticate(req.authorization, verify)
            case Deny(status, message) => reply == Fail(status, message)
            case Pass(u) => reply == (if Find(db.users.rows, u.id).None? then Fail(404, UserNotFound)
                                      else Ok(PublicOf(Find(db.users.rows, u.id).value)))
  {
    var step := RequireAuth(req, verify);
    if step.Halt? {
      return Fail(step.status, step.message);
    }
    reply := Me(db, req.user.value);
  }

  /**
   * Registering and then logging in with the same credentials succeeds
   * and names the new account, given bcrypt's law that a password matches
   * its own hash.
   */
  method RegisterThenLogin(db: Db, libs: Libs, name: string, email: string, password: string, now: int)
      returns (registered: Reply<Session>, loggedIn: Reply<Session>)
    requires db.Valid() && Lawful(libs)
    requires |name| >= 1 && libs.isEmail(email) && |password| >= 6
    requires FindByEmail(db.users.rows, email).None?
    modifies db.users
    ensures registered.Ok? && loggedIn.Ok?
    ensures loggedIn.body.user == registered.body.user
  {
    registered := Register(db, libs, RegisterBody(Str(name), Str(email), Str(password)), now);
    var row := db.users.rows[|db.users.rows| - 1];
    assert libs.compare(password, row.data.password);
    loggedIn := Login(db, libs, LoginBody(Str(email), Str(password)), now);
    FoundByEmailIsOnly(db.users.rows, email, |db.users.rows| - 1);
  }

  /** A second registration with the same email is refused and stores nothing. */
  method RegisterTwice(db: Db, libs: Libs, first: RegisterBody, second: RegisterBody, now: int)
      returns (a: Reply<Session>, b: Reply<Session>)
    requires db.Valid()
    requires RegisterIssue(libs, first).None? && RegisterIssue(libs, second).None?
    requires first.email == second.email
    modifies db.users
    ensures a.Ok? ==> b == Fail(409, EmailInUse) && |db.users.rows| == |old(db.users.rows)| + 1
  {
    a := Register(db, libs, first, now);
    if a.Ok? {
      assert db.users.rows[|db.users.rows| - 1].data.email == second.email.s;
    }
    b := Register(db, libs, second, now);
  }
}
