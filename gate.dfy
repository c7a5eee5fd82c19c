/**
 * The request gate of backend/src/middlewares/auth.ts: `requireAuth`
 * reads the `Authorization` header, checks the `Bearer <token>` form
 * (section 2.1 of RFC 6750, with the scheme matched case-sensitively),
 * verifies the token and attaches `{ id, role }` to the request;
 * `requireAdmin` lets only an ADMIN identity through.
 */
module AuthMiddleware {
  import opened Common
  import opened Text
  import opened Store
  import opened Libraries

  /** What `requireAuth` attaches as `req.user`. */
  datatype Identity = Identity(id: int, role: Role)

  /** The decision `requireAuth` takes for one header. */
  datatype Verdict = Pass(user: Identity) | Deny(status: int, message: string)

  /** What a middleware does with the request: call `next()` once, or answer and stop. */
  datatype Step = Next | Halt(status: int, message: string)

  const MissingHeader := "Missing Authorization header"
  const BadFormat := "Invalid token format"
  const BadToken := "Invalid or expired token"

  /**
   * `const [scheme, token] = authHeader.split(' ')` followed by
   * `scheme !== 'Bearer' || !token`: the token, when the first piece is
   * exactly "Bearer" and the second piece exists and is non-empty.
   */
  function BearerToken(header: string): Option<string> {
    var parts := Split(header, ' ');
    var token := if |parts| >= 2 then Some(parts[1]) else None;
    if parts[0] != "Bearer" || token.None? || token.value == "" then None else token
  }

  /**
   * The header carries token `t` in the accepted form: "Bearer", one space,
   * a non-empty run of non-space characters, then the end or another space
   * (anything after that space is ignored).
   */
  ghost predicate CarriesToken(header: string, t: string) {
    && t != [] && ' ' !in t
    && (header == "Bearer " + t || StartsWith(header, "Bearer " + t + " "))
  }

  /** The split-based check accepts exactly the headers of the form `CarriesToken` describes. */
  lemma BearerTokenIff(header: string, t: string)
    ensures BearerToken(header) == Some(t) <==> CarriesToken(header, t)
  {
    if BearerToken(header) == Some(t) {
      BearerTokenShape(header);
    }
    if CarriesToken(header, t) {
      CarriedTokenIsFound(header, t);
    }
  }

  lemma BearerTokenShape(header: string)
    requires BearerToken(header).Some?
    ensures CarriesToken(header, BearerToken(header).value)
  {
    var parts := Split(header, ' ');
    var t := parts[1];
    JoinSplit(header, ' ');
    assert Join(parts, ' ') == parts[0] + [' '] + Join(parts[1..], ' ');
    if |parts| == 2 {
      assert Join(parts[1..], ' ') == t;
      assert header == "Bearer " + t;
    } else {
      assert parts[1..][1..] == parts[2..];
      assert Join(parts[1..], ' ') == t + [' '] + Join(parts[2..], ' ');
      assert header == "Bearer " + t + " " + Join(parts[2..], ' ');
      assert header[..|"Bearer " + t + " "|] == "Bearer " + t + " ";
    }
  }

  lemma CarriedTokenIsFound(header: string, t: string)
    requires CarriesToken(header, t)
    ensures BearerToken(header) == Some(t)
  {
    var rest := header[7..];
    assert header == "Bearer" + [' '] + rest;
    SplitAfterPiece("Bearer", rest, ' ');
    if header == "Bearer " + t {
      assert rest == t;
      SplitNoSep(t, ' ');
    } else {
      var n := |"Bearer " + t + " "|;
      var tail := header[n..];
      assert header[..n] == "Bearer " + t + " ";
      assert header == "Bearer " + t + " " + tail by {
        assert header == header[..n] + header[n..];
      }
      assert rest == t + [' '] + tail by {
        assert header[7..] == (("Bearer " + t + " ") + tail)[7..];
        assert (("Bearer " + t + " ") + tail)[7..] == t + [' '] + tail;
      }
      SplitAfterPiece(t, tail, ' ');
    }
  }

  /**
   * `requireAuth` as a decision: no header (or an empty one) gives 401
   * "Missing Authorization header"; a malformed one 401 "Invalid token
   * format"; a token `verify` rejects, for any reason, 401 "Invalid or
   * expired token"; otherwise the identity from the verified payload.
   */
  function Authenticate(header: Option<string>, verify: string -> Verified): (v: Verdict)
    ensures v.Deny? ==> v.status == 401
    ensures v == Deny(401, MissingHeader) <==> header.None? || header == Some("")
  {
    if header.None? || header.value == "" then Deny(401, MissingHeader)
    else match BearerToken(header.value)
      case None => Deny(401, BadFormat)
      case Some(token) =>
        match verify(token)
        case Valid(p) => Pass(Identity(p.id, p.role))
        case _ => Deny(401, BadToken)
  }

  /** A well-formed header whose token fails verification, expired or forged, gets one and the same answer. */
  lemma FailedVerificationIsOneAnswer(header: string, t: string, verify: string -> Verified)
    requires CarriesToken(header, t) && !verify(t).Valid?
    ensures Authenticate(Some(header), verify) == Deny(401, BadToken)
  {
    BearerTokenIff(header, t);
  }

  /** A malformed header never reaches verification. */
  lemma MalformedHeaderRejected(header: string, verify: string -> Verified)
    requires header != "" && forall t :: !CarriesToken(header, t)
    ensures Authenticate(Some(header), verify) == Deny(401, BadFormat)
  {
    if BearerToken(header).Some? {
      BearerTokenShape(header);
    }
  }

  /** The identity attached is exactly the `{ id, role }` of the verified payload. */
  lemma PassCarriesPayload(header: string, t: string, verify: string -> Verified)
    requires CarriesToken(header, t) && verify(t).Valid?
    ensures Authenticate(Some(header), verify) == Pass(Identity(verify(t).payload.id, verify(t).payload.role))
  {
    BearerTokenIff(header, t);
  }

  /** A header carrying a token from `signToken` passes until that token expires, then is refused. */
  lemma SignedTokenAuthenticates(libs: Libs, id: int, role: Role, issued: int, now: int)
    requires Lawful(libs)
    ensures var header := "Bearer " + SignToken(libs, id, role, issued);
            var verify := (t: string) => libs.verify(t, now);
            Authenticate(Some(header), verify)
              == if now < issued + TokenLifetime then Pass(Identity(id, role)) else Deny(401, BadToken)
  {
    var t := SignToken(libs, id, role, issued);
    CarriedTokenIsFound("Bearer " + t, t);
  }

  /** `requireAdmin` as a decision over `req.user`. */
  function AdminGate(user: Option<Identity>): (s: Step)
    ensures s == Next <==> user.Some? && user.value.role == ADMIN
    ensures s == Halt(401, "Unauthorized") <==> user.None?
    ensures s == Halt(403, "Forbidden") <==> user.Some? && user.value.role != ADMIN
  {
    match user
    case None => Halt(401, "Unauthorized")
    case Some(u) => if u.role != ADMIN then Halt(403, "Forbidden") else Next
  }

  /** `requireAuth, requireAdmin` in sequence, for a request that arrives with no identity. */
  function AdminChain(header: Option<string>, verify: string -> Verified): (s: Step)
    ensures s.Halt? && s.status == 403 ==> Authenticate(header, verify).Pass?
    ensures !Authenticate(header, verify).Pass? ==> s.Halt? && s.status == 401
  {
    match Authenticate(header, verify)
    case Deny(status, message) => Halt(status, message)
    case Pass(u) => AdminGate(Some(u))
  }

  /** An incoming request: its `Authorization` header and the identity middleware attach. */
  class Request {
    const authorization: Option<string>
    var user: Option<Identity>

    constructor (authorization: Option<string>)
      ensures this.authorization == authorization && user == None
    {
      this.authorization := authorization;
      user := None;
    }
  }

  /** `requireAuth(req, res, next)`: sets `req.user` and continues, or answers 401 and leaves the request alone. */
  method RequireAuth(req: Request, verify: string -> Verified) returns (step: Step)
    modifies req
    ensures match Authenticate(req.authorization, verify)
            case Pass(u) => step == Next && req.user == Some(u)
            case Deny(status, message) => step == Halt(status, message) && req.user == old(req.user)
  {
    var header := req.authorization;
    if header.None? || header.value == "" {
      return Halt(401, MissingHeader);
    }
    var parts := Split(header.value, ' ');
    var scheme := parts[0];
    var token := if |parts| >= 2 then Some(parts[1]) else None;
    if scheme != "Bearer" || token.None? || token.value == "" {
      return Halt(401, BadFormat);
    }
    var verified := verify(token.value);
    if !verified.Valid? {
      return Halt(401, BadToken);
    }
    req.user := Some(Identity(verified.payload.id, verified.payload.role));
    step := Next;
  }

  /** `requireAdmin(req, res, next)`: reads `req.user` and changes nothing. */
  method RequireAdmin(req: Request) returns (step: Step)
    ensures step == Next <==> req.user.Some? && req.user.value.role == ADMIN
    ensures step.Halt? ==> step.status == if req.user.None? then 401 else 403
    ensures step == AdminGate(req.user)
  {
    if req.user.None? {
      return Halt(401, "Unauthorized");
    }
    if req.user.value.role != ADMIN {
      return Halt(403, "Forbidden");
    }
    step := Next;
  }

  /** The two middlewares of an admin-only route run on a fresh request. */
  method GuardAdminRoute(req: Request, verify: string -> Verified) returns (step: Step)
    requires req.user == None
    modifies req
    ensures step == AdminChain(req.authorization, verify)
  {
    step := RequireAuth(req, verify);
    if step == Next {
      step := RequireAdmin(req);
    }
  }
}
