/**
 * The third-party libraries the backend calls, as function values with the
 * laws the code relies on: bcrypt (`hash`, `compare`), jsonwebtoken
 * (`sign`, `verify`) and the two string checks of zod (`.email()`,
 * `.url()`). Nothing about their inner workings is modelled.
 */
module Libraries {
  import opened Common

  /** The claims a signed token carries: `{ id, role }` plus the issue and expiry times (seconds). */
  datatype TokenPayload = TokenPayload(id: int, role: Role, iat: int, exp: int)

  /** What `jwt.verify` does with a token: return its payload, or throw one of two errors. */
  datatype Verified = Valid(payload: TokenPayload) | Expired | Invalid

  datatype Libs = Libs(
    isEmail: string -> bool,
    isUrl: string -> bool,
    hash: string -> string,
    compare: (string, string) -> bool,
    sign: TokenPayload -> string,
    verify: (string, int) -> Verified)

  /**
   * The laws assumed of the libraries: a password matches its own hash; a
   * signed token verifies to its payload until its expiry and is reported
   * expired from then on; a signed token is non-empty and contains no space
   * (a JWS compact serialisation is base64url parts joined by dots).
   */
  ghost predicate Lawful(libs: Libs) {
    && (forall p :: libs.compare(p, libs.hash(p)))
    && (forall t, now :: libs.verify(libs.sign(t), now) == if now < t.exp then Valid(t) else Expired)
    && (forall t :: libs.sign(t) != [] && ' ' !in libs.sign(t))
  }

  /** `expiresIn: '7d'`, in seconds. */
  const TokenLifetime: int := 7 * 24 * 60 * 60

  /** `signToken({ id, role })`: a token for that identity, issued now, expiring seven days later. */
  function SignToken(libs: Libs, id: int, role: Role, now: int): string
  {
    libs.sign(TokenPayload(id, role, now, now + TokenLifetime))
  }

  /** A token from `SignToken` verifies to the same id and role for exactly seven days, then expires. */
  lemma SignTokenRoundTrip(libs: Libs, id: int, role: Role, issued: int, now: int)
    requires Lawful(libs)
    ensures var v := libs.verify(SignToken(libs, id, role, issued), now);
            && (now < issued + 604800 ==> v.Valid? && v.payload.id == id && v.payload.role == role)
            && (now >= issued + 604800 ==> v == Expired)
  {
  }
}
