/**
 * The four route guards of frontend/src/components/guards/RouteGuards.tsx:
 * each decides, from the session state, whether to show the loading
 * placeholder, redirect, or render the page it wraps.
 */
module RouteGuards {
  import opened Common

  /** The signed-in user as the client knows it; only the role matters here. */
  datatype ClientUser = ClientUser(role: string)

  /**
   * What a guard reads: whether the session query is loading, whether a
   * token is in local storage, and the current user. `isAuthenticated` is
   * `!!user`.
   */
  datatype Session = Session(isLoading: bool, hasToken: bool, user: Option<ClientUser>)

  /** What a guard renders: the loading placeholder, a `<Navigate>`, or its children. */
  datatype Outcome = Loading | Redirect(to: string, replace: bool) | Render

  predicate IsAuthenticated(s: Session) { s.user.Some? }

  predicate IsAdmin(s: Session) { s.user.Some? && s.user.value.role == "ADMIN" }

  /** `ProtectedRoute`: children for any signed-in user, otherwise to the sign-in page. */
  function Protected(s: Session): (o: Outcome)
    ensures o == Loading <==> s.isLoading
    ensures o == Render <==> !s.isLoading && IsAuthenticated(s)
    ensures o == Redirect("/auth", false) <==> !s.isLoading && !IsAuthenticated(s)
  {
    if s.isLoading then Loading
    else if !IsAuthenticated(s) then Redirect("/auth", false)
    else Render
  }

  /**
   * `AdminRoute`: the token is checked before the user, so a missing token
   * always goes to sign-in; a token without an ADMIN user goes home.
   */
  function Admin(s: Session): (o: Outcome)
    ensures o == Loading <==> s.isLoading
    ensures o == Redirect("/auth", true) <==> !s.isLoading && !s.hasToken
    ensures o == Redirect("/", true) <==> !s.isLoading && s.hasToken && !IsAdmin(s)
    ensures o == Render <==> !s.isLoading && s.hasToken && IsAdmin(s)
  {
    if s.isLoading then Loading
    else if !s.hasToken then Redirect("/auth", true)
    else if s.user.None? || s.user.value.role != "ADMIN" then Redirect("/", true)
    else Render
  }

  /** `PublicRoute` (the sign-in page): signed-in users are sent to their home, admins to /admin. */
  function Public(s: Session): (o: Outcome)
    ensures o == Loading <==> s.isLoading
    ensures o == Redirect("/admin", false) <==> !s.isLoading && IsAdmin(s)
    ensures o == Redirect("/", false) <==> !s.isLoading && IsAuthenticated(s) && !IsAdmin(s)
    ensures o == Render <==> !s.isLoading && !IsAuthenticated(s)
  {
    if s.isLoading then Loading
    else if IsAuthenticated(s) then
      if s.user.value.role == "ADMIN" then Redirect("/admin", false) else Redirect("/", false)
    else Render
  }

  /** `UserRoute`: children only for a signed-in non-admin; admins go to /admin, guests to sign-in. */
  function UserOnly(s: Session): (o: Outcome)
    ensures o == Loading <==> s.isLoading
    ensures o == Redirect("/auth", false) <==> !s.isLoading && !IsAuthenticated(s)
    ensures o == Redirect("/admin", false) <==> !s.isLoading && IsAdmin(s)
    ensures o == Render <==> !s.isLoading && IsAuthenticated(s) && !IsAdmin(s)
  {
    if s.isLoading then Loading
    else if s.user.None? then Redirect("/auth", false)
    else if s.user.value.role == "ADMIN" then Redirect("/admin", false)
    else Render
  }

  /** While the session loads, every guard shows the placeholder, whatever else holds. */
  lemma LoadingDominates(s: Session)
    requires s.isLoading
    ensures Protected(s) == Loading && Admin(s) == Loading && Public(s) == Loading && UserOnly(s) == Loading
  {
  }

  /** Once loaded, the sign-in page renders exactly when protected pages do not. */
  lemma PublicComplementsProtected(s: Session)
    requires !s.isLoading
    ensures Public(s) == Render <==> Protected(s) != Render
  {
  }

  /** Once loaded, a session sees at most one of the admin area and the user area. */
  lemma AdminAndUserAreasExclusive(s: Session)
    ensures !(Admin(s) == Render && UserOnly(s) == Render)
  {
  }

  /** Whoever may see the admin area may see every protected page. */
  lemma AdminImpliesProtected(s: Session)
    requires Admin(s) == Render
    ensures Protected(s) == Render
  {
  }

  /**
   * A user whose token was dropped from storage while still cached is let
   * through by the protected and user guards but refused by the admin
   * guard: only `AdminRoute` reads the token.
   */
  lemma OnlyAdminReadsToken(s: Session)
    requires !s.isLoading && s.user.Some? && !s.hasToken
    ensures Admin(s) == Redirect("/auth", true)
    ensures Protected(s) == Render
    ensures Protected(s.(hasToken := true)) == Protected(s) && UserOnly(s.(hasToken := true)) == UserOnly(s)
    ensures Public(s.(hasToken := true)) == Public(s)
  {
  }
}
