# Club management app: verified model of its request gate, routes and client logic

This project is a Dafny model of the decision logic in a student-club management web app. The app has an
Express/Prisma REST backend and a React admin and public frontend. The model covers the following parts:

- **Request gate** (`backend/src/middlewares/auth.ts`). `requireAuth` parses the `Authorization: Bearer <token>`
  header, verifies the token and attaches `{ id, role }` to a `Request` object. `requireAdmin` lets only ADMIN
  identities through. Module `AuthMiddleware`.
- **Account endpoints** (`backend/src/routes/auth.ts`). Register, login and `/me` run over the user table;
  `signToken` issues a seven-day token. Module `AuthRoutes`.
- **Resource endpoints** (`backend/src/routes/users.ts`, `clubs.ts`, `events.ts`).
  - Each list endpoint is filter, then order, then skip/take, plus a total count.
  - Create, update and delete run against the tables and their ORM outcomes: P2002 unique violation, P2025
    record not found, and thrown errors.
  - Club membership add, list and remove; a club's events; upcoming events.
  - Modules `UserRoutes`, `ClubRoutes` and `EventRoutes`.
- **Tables** (module `Store`). Each table is a `Table<T>` class holding a sequence of rows in primary-key order
  and an id counter. A `Db` class holds the four tables and keeps user emails unique.
- **Shared pieces**:
  - `Listing`: filter, stable sort and paging windows.
  - `Text`: prefix and suffix tests, substring search, `trim`, `split`.
  - `Http`: replies, body field shapes and the `page`/`limit` query arithmetic.
  - `Libraries`: bcrypt, jsonwebtoken and zod's string checks, as function values with stated laws.
- **Client logic**:
  - The four route guards: module `RouteGuards`.
  - `assetUrl`: module `AssetUrl`.
  - The admin events page's status label, badge, page count, pager, search reset and dialog state: module
    `EventsPage`.
  - The club form dialog's validation (including HTML-tag stripping), payload, and state on open, save and
    failure: module `ClubForm`.

## How to read the model

**Replies.**
- A handler's reply is a `Reply<T>`: `Ok`, `Created`, `NoContent`, `BadInput(field)`, `Fail(status, message)`
  or `Unhandled`.
- `BadInput(field)` names the first field zod rejects, in the order the schema's keys are declared.
- `Unhandled` stands for a handler that throws outside any `try` block. It sends no reply of its own; what the
  client then sees depends on the Express version, which the sources do not fix (a 500 page under Express 5, no
  answer at all under Express 4, where the rejected promise of an `async` handler never reaches `next`).

**Inputs.**
- Request bodies are built from `Json` fields: `Missing | Str | Int | Frac | Other`, where `Frac` is a number with a fractional part.
- Numeric query parameters are `NumParam`: `Absent | Num | NaN`.
- A path id is `Option<int>`, where `None` is what `Number(...)` gives for text that is not an integer. The ORM
  throws on such an id. The handlers without `try` therefore give `Unhandled`, and the ones with `try` give
  500.

**Libraries.**
- `Libraries.Libs` collects `hash`, `compare`, `sign`, `verify`, `isEmail` and `isUrl` as function values.
- `Libraries.Lawful` states what the code relies on:
  - a password matches its own hash;
  - a signed token verifies to its payload until its expiry, then reports expiry;
  - tokens contain no space.
- Clocks and uploads are parameters (`now`, `upload`).

**Findings.** Two defects, one in the events page and one in the clubs page, are recorded under "## Findings".
The model keeps each defect as written next to its corrected form.

## Model

| member | source | states |
|---|---|---|
| AuthMiddleware.BearerTokenIff | backend/src/middlewares/auth.ts:12-13 | The header passes the format check with token `t` iff it is "Bearer", one space, a non-empty space-free `t`, then the end or a space. The scheme is matched case-sensitively and pieces after the second are ignored. |
| AuthMiddleware.Authenticate | backend/src/middlewares/auth.ts:8-25 | Every denial is a 401. A missing or empty header gives "Missing Authorization header", and that happens exactly in that case. |
| AuthMiddleware.FailedVerificationIsOneAnswer | backend/src/middlewares/auth.ts:15-24 | A well-formed header whose token fails verification gets the single answer 401 "Invalid or expired token", whether the token expired or is forged. |
| AuthMiddleware.MalformedHeaderRejected | backend/src/middlewares/auth.ts:12-13 | A non-empty header not of the Bearer form gets 401 "Invalid token format" and never reaches verification. |
| AuthMiddleware.PassCarriesPayload | backend/src/middlewares/auth.ts:16-21 | On success the attached identity is exactly `{ id, role }` of the verified payload. |
| AuthMiddleware.SignedTokenAuthenticates | backend/src/middlewares/auth.ts:8-25 | A header carrying a token from `signToken` authenticates as that id and role for seven days, then gets 401 "Invalid or expired token". |
| AuthMiddleware.AdminGate | backend/src/middlewares/auth.ts:27-31 | `requireAdmin` continues iff the user is ADMIN, gives 401 "Unauthorized" iff there is no user, and gives 403 "Forbidden" iff the user is not ADMIN. |
| AuthMiddleware.AdminChain | backend/src/middlewares/auth.ts:8-31 | In the chain `requireAuth, requireAdmin`, a 403 only follows successful authentication, and any failed authentication stops with a 401. |
| AuthMiddleware.RequireAuth | backend/src/middlewares/auth.ts:8-25 | On `Pass(u)` it calls `next` and sets `req.user` to `u`. On a denial it answers with that status and message and leaves `req.user` unset. |
| AuthMiddleware.RequireAdmin | backend/src/middlewares/auth.ts:27-31 | Continues iff `req.user` is ADMIN; answers 401 without a user and 403 otherwise; changes nothing. |
| AuthMiddleware.GuardAdminRoute | backend/src/middlewares/auth.ts:8-31 | Running both middlewares on a fresh request ends exactly as `AdminChain` says. |
| Libraries.SignTokenRoundTrip | backend/src/routes/auth.ts:21-24 | A token from `signToken` verifies to the same id and role until 604800 seconds after issue, and is reported expired from then on. |
| AuthRoutes.RegisterIssue | backend/src/routes/auth.ts:10-14 | Register input passes iff the name has length ≥ 1, the email is valid and the password has length ≥ 6. The name is reported first, and the password only when name and email pass. |
| AuthRoutes.LoginIssue | backend/src/routes/auth.ts:16-19 | Login input passes iff the email is valid and the password has length ≥ 6, so a short password is a 400, not a 401. |
| AuthRoutes.PublicOf | backend/src/routes/auth.ts:36 | The public view is exactly id, name, email and role of the stored row. Its type has no password. |
| AuthRoutes.Register | backend/src/routes/auth.ts:26-45 | Bad input gives 400 and a taken email gives 409; both leave the table unchanged. Otherwise one USER row storing `hash(password)` is appended, and the reply is its public view with a token signed over its id and role. Emails stay unique. |
| AuthRoutes.FoundByEmailIsOnly | backend/src/routes/auth.ts:51 | With unique emails, the lookup by email finds the one row holding that email. |
| AuthRoutes.Login | backend/src/routes/auth.ts:47-64 | 400 iff the input is invalid. The same 401 "Invalid credentials" iff no stored account has that email with a matching password. Otherwise 200 with the stored account's view and a token for its id and role. The table is only read. |
| AuthRoutes.Me | backend/src/routes/auth.ts:66-77 | 404 "User not found" iff the caller's id has no row; otherwise the stored row's public view, so its stored role and not the token's. |
| AuthRoutes.MeRoute | backend/src/routes/auth.ts:66 | `requireAuth` followed by `/me`: its 401 answers, or `Me` for the authenticated identity. |
| AuthRoutes.RegisterThenLogin | backend/src/routes/auth.ts:26-64 | On a table without that email, a valid register followed by a login with the same credentials succeeds and returns the same user. |
| AuthRoutes.RegisterTwice | backend/src/routes/auth.ts:30-31 | Registering the same email twice gives 409 the second time, and the table grows by exactly one row. |
| UserRoutes.SummaryOf | backend/src/routes/users.ts:43 | The `select` projection: the row's id, name, email, role and createdAt, and no password hash. |
| UserRoutes.List | backend/src/routes/users.ts:22-55 | 200 iff `page`/`limit` (defaults 1 and 10) give a valid skip and take, else 500. `total` counts every user whose name or email contains the search, and an empty search counts all. The rows are the password-free summaries of the run of matching users, newest first, that starts at `(page-1)*limit` and holds at most `limit` of them. |
| UserRoutes.ListedSummaries | backend/src/routes/users.ts:39-45 | Each summary on a list page is of an account of the table that matches the search, and the page runs newest first. |
| UserRoutes.EmptySearchCountsAll | backend/src/routes/users.ts:31-38 | With an empty search the total is the size of the table. |
| UserRoutes.Get | backend/src/routes/users.ts:57-65 | A non-numeric id is unhandled; 404 iff no row has the id; a present id answers 200 with the summary (without password) of the row holding it. |
| UserRoutes.GetAfterCreate | backend/src/routes/users.ts:57-65 | Reading back a user created under a fresh id gives its summary. |
| UserRoutes.GetAfterUpdate | backend/src/routes/users.ts:57-65 | Reading back an updated user gives the new fields with the old id and creation time. |
| UserRoutes.GetAfterDelete | backend/src/routes/users.ts:57-65 | Reading back a deleted user gives 404. |
| UserRoutes.RoleGiven | backend/src/routes/users.ts:12 | The optional role is absent iff not sent, and ADMIN iff "ADMIN" was sent. |
| UserRoutes.CreateIssue | backend/src/routes/users.ts:8-13 | Create input passes iff name, email and password pass and the role is absent, "ADMIN" or "USER". |
| UserRoutes.Create | backend/src/routes/users.ts:67-85 | 400 on bad input and 409 on a taken email, both with the table unchanged. Otherwise 201 and one appended row with the hashed password and the given role, USER when none is given. |
| UserRoutes.UpdateIssue | backend/src/routes/users.ts:15-20 | Every field is optional; a sent field must satisfy its rule. |
| UserRoutes.Patched | backend/src/routes/users.ts:92-96 | The stored password becomes the hash of the new one only when a password is sent, and is otherwise kept. |
| UserRoutes.PatchedFields | backend/src/routes/users.ts:92 | A sent name, email or role is written as given, and an unsent one keeps its stored value. |
| UserRoutes.EmptyPatch | backend/src/routes/users.ts:92-100 | An empty body changes nothing. |
| UserRoutes.Update | backend/src/routes/users.ts:87-109 | Bad input gives 400; a non-numeric id gives 500; a missing id gives 404; an email held by another user gives 500 (P2002 is not caught here). Otherwise the row is replaced by the patch and its view returned. Only a 200 changes the table, and emails stay unique. |
| UserRoutes.Delete | backend/src/routes/users.ts:111-120 | A non-numeric id gives 500 and a missing id gives 404, both unchanged. Otherwise 204, exactly that row is removed and the table shrinks by one. |
| Store.Find | backend/src/routes/users.ts:59 | `findUnique` by id finds a stored row with that id, or nothing iff no row has it. |
| Store.Replaced | backend/src/routes/users.ts:98-102 | An update keeps every row's id and creation time and the table's length. |
| Store.Without | backend/src/routes/users.ts:114 | A delete keeps exactly the rows with other ids. |
| Store.FindAfterUpdate | backend/src/routes/users.ts:98-102 | After an update the id finds the new data; other ids find what they found before. |
| Store.FindAfterInsert | backend/src/routes/clubs.ts:80 | After a `create` under a fresh id that id finds the new row, and other ids find what they found before. |
| Store.DeleteRemovesId | backend/src/routes/users.ts:114 | After a delete the id finds nothing. |
| Store.FindAfterDelete | backend/src/routes/users.ts:114 | A delete does not affect lookups of other ids. |
| Store.DeleteRemovesOne | backend/src/routes/users.ts:114 | With unique ids, deleting a present id removes exactly one row. |
| Store.DeleteNothing | backend/src/routes/users.ts:114-117 | Deleting an absent id changes nothing. |
| Store.UpdateKeepsIds | backend/src/routes/users.ts:98 | Updates keep ids unique and below the counter. |
| Store.DeleteKeepsIds | backend/src/routes/users.ts:114 | Deletes keep ids unique and below the counter. |
| Store.FilterKeepsIds | backend/src/routes/clubs.ts:149 | A `deleteMany` keeps ids unique and below the counter. |
| Store.Table.Insert | backend/src/routes/auth.ts:34-37 | `create` appends one row with the next id, the given time and data, and advances the counter. |
| Store.Table.Update | backend/src/routes/users.ts:98-102 | `update` reports whether the id exists and replaces that row's data iff it does. |
| Store.Table.Delete | backend/src/routes/users.ts:114 | `delete` reports whether the id exists and removes that row iff it does. |
| Store.Table.DeleteWhere | backend/src/routes/clubs.ts:149 | `deleteMany` keeps exactly the rows that do not match, in order, and counts the removed ones. |
| Store.Db.CreateUser | backend/src/routes/users.ts:75-82 | Creating a user whose email is taken is a unique violation and changes nothing; otherwise the row is appended. Emails stay unique. |
| Store.Db.UpdateUser | backend/src/routes/users.ts:98-106 | Record-not-found for a missing id, a unique violation for an email held by another user, else the row is replaced. Emails stay unique. |
| Store.ReplacedKeepsEmailsUnique | backend/src/routes/users.ts:98-102 | Replacing a row with an email no other row has keeps emails unique. |
| Store.WithoutKeepsEmailsUnique | backend/src/routes/users.ts:114 | Deleting keeps emails unique. |
| Store.FindByEmail | backend/src/routes/auth.ts:30 | `findUnique` by email finds a stored row with that email, or nothing iff no row has it. |
| Listing.Filter | backend/src/routes/users.ts:31-38 | The `where` keeps exactly the matching rows, each from the table and none more often than the table holds it. |
| Listing.FilterKeepsCounts | backend/src/routes/users.ts:31-38 | A matching row is kept as many times as the table holds it, so the filter loses no copy of a match. |
| Listing.FilterAll | backend/src/routes/users.ts:38 | An empty `where` keeps every row. |
| Listing.FilterIdempotent | backend/src/routes/users.ts:31-38 | Filtering twice is filtering once. |
| Listing.FilterSame | backend/src/routes/events.ts:42-47 | Two filters that agree on every row select the same rows. |
| Listing.Insert | backend/src/routes/users.ts:44 | Inserting into an ordered sequence keeps it ordered and adds exactly that row. |
| Listing.SortBy | backend/src/routes/users.ts:44 | `orderBy` returns a permutation of the rows, ordered by the key. |
| Listing.SortKeepsRows | backend/src/routes/users.ts:44 | Ordering loses and invents no rows. |
| Listing.Window | backend/src/routes/users.ts:45-46 | `skip`/`take` returns the rows from `skip` on, at most `take` of them. |
| Listing.AdjacentWindows | backend/src/routes/users.ts:45-46 | Two adjacent windows concatenate to the window of both. |
| Listing.List | backend/src/routes/users.ts:31-49 | The total counts every match regardless of page. The page holds `min(take, total - skip)` rows, none when `skip` reaches the total, and its `i`-th row is row `skip + i` of the ordered matches. Each row is a match from the table, in key order. |
| Listing.Ordered | backend/src/routes/users.ts:41-44 | The ordered matches are sorted by the key, each is a matching row of the table, and each match occurs exactly as often as in the table. |
| Listing.ListIsWindow | backend/src/routes/users.ts:44-46 | A list page is exactly the `skip`/`take` window of the ordered matches. |
| Listing.PagesTile | backend/src/routes/users.ts:27 | Pages 1..n of size `limit` concatenate to the first n·limit rows. |
| Listing.PagesCoverAll | backend/src/routes/users.ts:27 | Enough pages cover every row exactly once, in order. |
| Listing.ListPagesTile | backend/src/routes/users.ts:44-46 | Reading list pages 1 to `k` of `limit` rows in turn gives the first `k*limit` ordered matches without gap or repeat. Once `k*limit` reaches the count, the pages hold every match exactly once, in key order. |
| Listing.SortedPrefixFirst | backend/src/routes/events.ts:80-84 | The first `n` rows of a sorted sequence are rows of it, and every row left out may follow each of them. |
| Http.ParseOr | backend/src/routes/users.ts:24-25 | `parseInt(q \|\| fallback)`: the fallback when absent, the number when numeric, and NaN exactly for other text. |
| Http.PagingOf | backend/src/routes/users.ts:24-27 | `skip = (page-1)·limit` and `take = limit`, valid iff both parse and neither is negative. Defaults give skip 0 and the default limit. |
| ClubRoutes.ViewOf | backend/src/routes/clubs.ts:54-64 | A listed club carries its id, name, description, image, facebookUrl and creation time, plus the number of its events and of its members, 0 when it has none. |
| ClubRoutes.Views | backend/src/routes/clubs.ts:54 | Every listed club is mapped, in order. |
| ClubRoutes.List | backend/src/routes/clubs.ts:33-67 | 200 iff paging is valid; otherwise unhandled, since there is no `try`. The body is `ClubsPage` for that paging. |
| ClubRoutes.ClubsPage | backend/src/routes/clubs.ts:39-66 | `total` counts clubs whose name contains the search. The rows are the views of the run of matching clubs, newest first, that starts at `(page-1)*limit` and holds at most `limit` of them; each is a view of a matching club. |
| ClubRoutes.ListedViews | backend/src/routes/clubs.ts:41-64 | The views of the listed clubs are views of clubs the search matches, newest first. |
| ClubRoutes.Get | backend/src/routes/clubs.ts:69-74 | Unhandled for a non-numeric id; 404 "Club not found" iff absent; a present id answers 200 with the stored row holding it. |
| ClubRoutes.GetAfterCreate | backend/src/routes/clubs.ts:69-74 | Reading back a club created under a fresh id gives that row. |
| ClubRoutes.GetAfterUpdate | backend/src/routes/clubs.ts:69-74 | Reading back an updated club gives the new fields with the old id and creation time. |
| ClubRoutes.GetAfterDelete | backend/src/routes/clubs.ts:69-74 | Reading back a deleted club gives 404 "Club not found". |
| ClubRoutes.FacebookGiven | backend/src/routes/clubs.ts:26-30 | An empty facebookUrl becomes absent; a stored URL is a non-empty valid URL that was sent. |
| ClubRoutes.CreateIssue | backend/src/routes/clubs.ts:23-31 | Club input passes iff name and description are non-empty and facebookUrl is absent, "" or a URL. |
| ClubRoutes.UpdateIssue | backend/src/routes/clubs.ts:91 | With `partial()`, every field is optional; a sent field must satisfy its rule. |
| ClubRoutes.Create | backend/src/routes/clubs.ts:76-86 | 400 on bad input with the table unchanged. Otherwise 201 and one appended club whose image is set iff a file was uploaded. |
| ClubRoutes.Patched | backend/src/routes/clubs.ts:92-93 | The image is replaced only when a file is uploaded. |
| ClubRoutes.PatchedKeepsUnsent | backend/src/routes/clubs.ts:91-95 | Unsent fields keep their stored values, facebookUrl "" leaves the stored URL alone, and an empty body with no upload changes nothing. |
| ClubRoutes.Update | backend/src/routes/clubs.ts:88-102 | 400 / 500 for a non-numeric id / 404 "Club not found", each with the table unchanged; otherwise the patched club. |
| ClubRoutes.Delete | backend/src/routes/clubs.ts:104-113 | 500 for a non-numeric id and 404 for a missing one, both unchanged; otherwise 204 with exactly that club removed. |
| ClubRoutes.MemberViewOf | backend/src/routes/clubs.ts:118-128 | A membership view carries the row's ids and role, its creation time as `joinedAt`, and, iff that user exists, the brief of exactly that user: id, name and email. |
| ClubRoutes.Members | backend/src/routes/clubs.ts:116-130 | Unhandled for a non-numeric club id. Otherwise one view for each membership of that club, all of that club. |
| ClubRoutes.MemberIssue | backend/src/routes/clubs.ts:134 | The body passes iff `userId` is a number, whole or fractional, and `role` is absent or a string. |
| ClubRoutes.RoleOrMember | backend/src/routes/clubs.ts:137 | `role \|\| 'member'`: a non-empty role as given, otherwise "member". |
| ClubRoutes.AddMember | backend/src/routes/clubs.ts:132-143 | 400 on bad input. 500 for a non-numeric club id or a fractional user id, which the integer column refuses; both leave the table unchanged. Otherwise 201 and one appended membership with the role defaulted. |
| ClubRoutes.RemoveMember | backend/src/routes/clubs.ts:145-154 | 204 whether or not a row existed; exactly the rows with that (club, user) pair are removed and all others stay in order. |
| ClubRoutes.RemoveMemberIdempotent | backend/src/routes/clubs.ts:149-150 | Removing a membership twice leaves the same rows as removing it once. |
| ClubRoutes.RemoveMemberKeepsOthers | backend/src/routes/clubs.ts:149 | Every membership of another pair survives a removal. |
| ClubRoutes.ClubEvents | backend/src/routes/clubs.ts:157-161 | Unhandled for a non-numeric club id; otherwise exactly that club's events, a permutation of them, by start date descending. The same route is at backend/src/routes/events.ts:141-145. |
| EventRoutes.BuildWhere | backend/src/routes/events.ts:36-47 | The `where` built key by key is refused iff a date parameter is an Invalid Date or the club id is fractional. Otherwise it admits exactly the events whose title contains a non-empty search, of the club when `clubId` is a non-zero integer, starting no earlier than `startDate` when given, and ending no later than `endDate` when given. |
| EventRoutes.ClubName | backend/src/routes/events.ts:72 | `clubName` is the club's name, or "" when the club is absent. |
| EventRoutes.EventViewOf | backend/src/routes/events.ts:61-73 | A listed event carries its id, title, description, club id, start and end dates, location, image and creation time, and its club's name. |
| EventRoutes.EventViews | backend/src/routes/events.ts:61 | Every listed event is mapped, in order. |
| EventRoutes.WantedPage | backend/src/routes/events.ts:49-75 | `total` counts every wanted event. The rows are the views of the run of wanted events, earliest start first, that starts at the skip and holds at most `take` of them; each is a view of a wanted event. |
| EventRoutes.List | backend/src/routes/events.ts:32-76 | 200 iff paging is valid, no date parameter is an Invalid Date and the club id is not fractional; otherwise unhandled. The body is `WantedPage` for that paging. |
| EventRoutes.Upcoming | backend/src/routes/events.ts:78-86 | Unhandled for a NaN or negative limit. Otherwise the first min(limit, number of events starting at or after now) events in start order (default limit 5): each starts at or after now, none is repeated beyond the table, and no upcoming event left out starts before any returned one. |
| EventRoutes.EarliestUpcoming | backend/src/routes/events.ts:80-84 | The first `n` upcoming events in start order are upcoming events of the table, and every upcoming event left out starts no earlier than each of them. |
| EventRoutes.Get | backend/src/routes/events.ts:88-93 | Unhandled for a non-numeric id; 404 "Event not found" iff absent; a present id answers 200 with the stored row holding it. |
| EventRoutes.GetAfterCreate | backend/src/routes/events.ts:88-93 | Reading back an event created under a fresh id gives that row. |
| EventRoutes.GetAfterUpdate | backend/src/routes/events.ts:88-93 | Reading back an updated event gives the new fields with the old id and creation time. |
| EventRoutes.GetAfterDelete | backend/src/routes/events.ts:88-93 | Reading back a deleted event gives 404 "Event not found". |
| EventRoutes.CreateIssue | backend/src/routes/events.ts:23-30 | Event input passes iff title and description are non-empty, clubId coerces to an integer, both dates coerce to valid dates and location is absent or a string. |
| EventRoutes.UpdateIssue | backend/src/routes/events.ts:116 | With `partial()`, every field is optional; a sent field must satisfy its rule. |
| EventRoutes.Create | backend/src/routes/events.ts:95-111 | 400 on bad input with the table unchanged; otherwise 201 and one appended event with the coerced club id and the image set iff a file was uploaded. |
| EventRoutes.Patched | backend/src/routes/events.ts:117-118 | The image is replaced only when a file is uploaded. |
| EventRoutes.EmptyPatch | backend/src/routes/events.ts:116-120 | An empty body with no upload changes nothing. |
| EventRoutes.Update | backend/src/routes/events.ts:113-127 | 400 / 500 for a non-numeric id / 404 "Event not found", each unchanged; otherwise the patched event. |
| EventRoutes.Delete | backend/src/routes/events.ts:129-138 | 500 for a non-numeric id and 404 for a missing one, both unchanged; otherwise 204 with exactly that event removed. |
| RouteGuards.Protected | frontend/src/components/guards/RouteGuards.tsx:9-21 | Loading iff loading; renders iff loaded and signed in; redirects to /auth iff loaded and signed out. |
| RouteGuards.Admin | frontend/src/components/guards/RouteGuards.tsx:23-42 | Loading iff loading. Without a token, /auth (replace), checked before the user. With a token but no ADMIN user, / (replace). Renders iff a token and an ADMIN user. |
| RouteGuards.Public | frontend/src/components/guards/RouteGuards.tsx:44-61 | Loading iff loading; a signed-in ADMIN goes to /admin and any other signed-in user to /; renders iff signed out. |
| RouteGuards.UserOnly | frontend/src/components/guards/RouteGuards.tsx:63-79 | Loading iff loading; signed out goes to /auth, ADMIN to /admin; renders iff a signed-in non-admin. |
| RouteGuards.LoadingDominates | frontend/src/components/guards/RouteGuards.tsx:12 | While loading every guard shows the placeholder. |
| RouteGuards.PublicComplementsProtected | frontend/src/components/guards/RouteGuards.tsx:16-20 | Once loaded, the sign-in page renders exactly when protected pages do not. |
| RouteGuards.AdminAndUserAreasExclusive | frontend/src/components/guards/RouteGuards.tsx:37-41 | No session renders both the admin area and the user area. |
| RouteGuards.AdminImpliesProtected | frontend/src/components/guards/RouteGuards.tsx:23-42 | Whoever may see the admin area may see every protected page. |
| RouteGuards.OnlyAdminReadsToken | frontend/src/components/guards/RouteGuards.tsx:26 | A cached user without a stored token is sent to /auth by the admin guard but let through by the protected guard; the other guards ignore the token. |
| AssetUrl.Origin | frontend/src/lib/utils.ts:14 | The origin is a prefix of the API URL with 0, 3, 4 or 5 characters removed, and none removed iff the URL ends neither in "api" nor "api/". |
| AssetUrl.OriginOfApiBase | frontend/src/lib/utils.ts:14 | An API URL ending in "/api" or "/api/" loses exactly that. |
| AssetUrl.Normalized | frontend/src/lib/utils.ts:15 | The normalised path starts with "/"; it is the path itself iff the path already did, else "/" plus the path. |
| AssetUrl.NormalizedIdempotent | frontend/src/lib/utils.ts:15 | Normalising a normalised path changes nothing. |
| AssetUrl.Resolve | frontend/src/lib/utils.ts:9-17 | Nothing iff the path is empty or absent. An absolute path (`http://`, `https://` in any case, `//` or `data:`) comes back unchanged. Otherwise the result is the origin followed by the normalised path. |
| AssetUrl.DefaultOrigin | frontend/src/lib/utils.ts:13-14 | With the default base the origin is "http://localhost:5000", which is absolute. |
| AssetUrl.AbsolutePrefix | frontend/src/lib/utils.ts:12 | A string with an absolute prefix is absolute. |
| AssetUrl.ResolveIdempotent | frontend/src/lib/utils.ts:12-16 | When the origin is absolute or empty, resolving a resolved URL changes nothing. |
| AssetUrl.EmptyOriginResolvesOnce | frontend/src/lib/utils.ts:12-16 | With an empty origin a relative path resolves to its normalised self, which resolves to itself. |
| AssetUrl.RelativeBaseNotIdempotent | frontend/src/lib/utils.ts:14-16 | With a relative base "app/api", "x" becomes "app/x", and resolving again gives "app/app/x". |
| EventsPage.Status | frontend/src/pages/admin/Events/index.tsx:36-44 | "sắp tới" iff now is before the start; otherwise "hoàn thành" iff now is after the end; otherwise "đang diễn ra". Invalid dates compare false. |
| EventsPage.BoundariesAreOngoing | frontend/src/pages/admin/Events/index.tsx:41-43 | At the start and at the end instants an event is ongoing. |
| EventsPage.InvalidDatesAreOngoing | frontend/src/pages/admin/Events/index.tsx:38-43 | An event with unparsable dates shows as ongoing. |
| EventsPage.BadgeClass | frontend/src/pages/admin/Events/index.tsx:46-58 | Blue iff upcoming, green iff ongoing, gray for everything else, including the default branch. |
| EventsPage.BadgeOfStatus | frontend/src/pages/admin/Events/index.tsx:46-58 | Every status the page computes is one of the three cases, so the default branch is unreachable; the colour follows the event's position relative to now. |
| EventsPage.TotalPages | frontend/src/pages/admin/Events/index.tsx:24 | At least one page, enough pages of 10 to hold the total, and no more than needed. |
| EventsPage.EventsPageState.Prev | frontend/src/pages/admin/Events/index.tsx:223-224 | The page becomes max(1, page - 1): it goes down by one unless the button is disabled (page ≤ 1), and a page within [1, pages] stays within it. |
| EventsPage.EventsPageState.Next | frontend/src/pages/admin/Events/index.tsx:234-235 | The page becomes min(pages, page + 1): it goes up by one unless the button is disabled (page ≥ pages), and a page within [1, pages] stays within it. |
| EventsPage.EventsPageState.Search | frontend/src/pages/admin/Events/index.tsx:27-29 | A new search term puts the pager on page 1; the same term leaves the page alone. |
| EventsPage.EventsPageState.Edit | frontend/src/pages/admin/Events/index.tsx:185-188 | "Chi tiết" selects the row's event and opens the dialog. |
| EventsPage.EventsPageState.Submit | frontend/src/pages/admin/Events/index.tsx:83-90 | The request is an update of the selected event when one is selected and a create otherwise. Success closes the dialog and clears the selection; failure leaves both. |
| EventsPage.EventsPageState.OpenCreate | frontend/src/pages/admin/Events/index.tsx:101 | Corrected "Thêm sự kiện": the dialog opens with no selection. |
| EventsPage.StaleSelectionAsWritten | frontend/src/pages/admin/Events/index.tsx:101 | As written, edit, cancel, then "Thêm sự kiện" and save opens in edit mode and updates the earlier event. |
| EventsPage.StaleSelectionCorrected | frontend/src/pages/admin/Events/index.tsx:83-89 | With the corrected button the same steps open in create mode and create. |
| ClubForm.StripTags | frontend/src/components/forms/ClubFormDialog.tsx:86 | Removing `<...>` tags never lengthens the text or adds characters, and leaves no `<` followed later by `>`. |
| ClubForm.KeepsTextAroundTag | frontend/src/components/forms/ClubFormDialog.tsx:86 | A tag is dropped whole at its first `>`, and the text before it is kept unchanged. |
| ClubForm.NoTagUnchanged | frontend/src/components/forms/ClubFormDialog.tsx:86 | Text the tag pattern cannot match is left unchanged. |
| ClubForm.PlainTextUnchanged | frontend/src/components/forms/ClubFormDialog.tsx:86 | Text without `<` is left unchanged. |
| ClubForm.StripTagsIdempotent | frontend/src/components/forms/ClubFormDialog.tsx:86 | Stripping twice is stripping once. |
| ClubForm.EmptyParagraphStripsToNothing | frontend/src/components/forms/ClubFormDialog.tsx:86 | "<p></p>" strips to "". |
| ClubForm.Problem | frontend/src/components/forms/ClubFormDialog.tsx:79-90 | The name message iff the name is missing or shorter than 2 after trimming. The description message iff the name passes and the tag-stripped, trimmed description is empty. No message iff both pass. |
| ClubForm.EmptyParagraphRefused | frontend/src/components/forms/ClubFormDialog.tsx:86-90 | A description of only empty markup is refused with "Mô tả không được để trống". |
| ClubForm.PlainDescriptionAccepted | frontend/src/components/forms/ClubFormDialog.tsx:86-90 | A plain-text description with a non-space character passes. |
| ClubForm.TaggedTextKept | frontend/src/components/forms/ClubFormDialog.tsx:86 | Plain text between an opening and a closing tag is exactly what stripping leaves. |
| ClubForm.TaggedTextAccepted | frontend/src/components/forms/ClubFormDialog.tsx:86-90 | An editor paragraph such as `<p>hi</p>`, holding plain text with a non-space character, passes the description check. |
| ClubForm.FailureMessage | frontend/src/components/forms/ClubFormDialog.tsx:118 | The response's message when it is non-empty, else "Lưu thất bại, vui lòng thử lại."; never empty. |
| ClubForm.ClubFormState.Open | frontend/src/components/forms/ClubFormDialog.tsx:55-68 | Opening clears the error and loads the initial data, or the blank values (empty name, description, facebookUrl and faculty, type STUDENT). `reset` with values also makes them the form's defaults. The chosen file is kept. |
| ClubForm.ClubFormState.ChooseFile | frontend/src/components/forms/ClubFormDialog.tsx:230-234 | A chosen file replaces the previous one; no choice changes nothing. |
| ClubForm.ClubFormState.EditDescription | frontend/src/components/forms/ClubFormDialog.tsx:70-72 | The editor's HTML becomes the description state and is mirrored into the form values. |
| ClubForm.ClubFormState.Submit | frontend/src/components/forms/ClubFormDialog.tsx:74-124 | A failing check shows its message, sends nothing and changes nothing else. Otherwise it sends the values with the raw, unstripped description and the chosen file. A save closes the dialog, resets the form, and clears the file and the description. A rejection shows the failure message and stays open. |
| ClubForm.ClubFormState.Settle | frontend/src/components/forms/ClubFormDialog.tsx:107-122 | After a save the dialog is closed, the file cleared and the description ""; after a rejection only the error changes. |
| ClubForm.SentPassesChecks | frontend/src/components/forms/ClubFormDialog.tsx:79-97 | Whatever is sent has a name of at least two non-blank characters and a description that is not blank once stripped, whatever the server answers. |
| ClubForm.SavedCreateFormIsBlank | frontend/src/components/forms/ClubFormDialog.tsx:55-111 | After opening in create mode and saving, the bare `reset()` returns the form to the blank values it opened with; the dialog is closed and no file is chosen. |
| ClubForm.PageSettles | frontend/src/pages/admin/Clubs/index.tsx:31-66 | The corrected page handler: the dialog's `await onSubmit` resolves iff the server accepts the save, and a refusal rejects with the response's message. |
| ClubForm.RefusedSaveAsWritten | frontend/src/pages/admin/Clubs/index.tsx:63-65 | As written, a save the server refuses closes the dialog, clears the file and the description, and shows no message. |
| ClubForm.RefusedSaveCorrected | frontend/src/components/forms/ClubFormDialog.tsx:113-122 | With the corrected page handler, a refused save leaves the dialog as it was, with the typed values and the chosen file, and shows the failure message. |
| Text.JoinSplit | backend/src/middlewares/auth.ts:12 | Splitting on a character and joining the pieces with it gives back the string. |
| Text.SplitAfterPiece | backend/src/middlewares/auth.ts:12 | A space-free piece followed by a space splits off as the first piece. |
| Text.SplitJoin | backend/src/middlewares/auth.ts:12 | Joining space-free pieces and splitting gives back the pieces. |
| Text.ContainsIffOccurs | backend/src/routes/users.ts:34-35 | `contains` holds iff the search occurs at some position. |
| Text.Trim | frontend/src/components/forms/ClubFormDialog.tsx:80 | `trim` gives the contiguous middle of the text: what it removes before and after is all ECMAScript white space, and the result neither starts nor ends with white space. |
| Text.TrimEmptyIffAllSpace | frontend/src/components/forms/ClubFormDialog.tsx:86-87 | Trimming gives "" iff the text is all white space. |
| Text.TrimIdempotent | frontend/src/components/forms/ClubFormDialog.tsx:80 | Trimming twice is trimming once. |

## Left out

- bcrypt, jsonwebtoken and zod's `.email()` / `.url()` are function values with stated laws, not implementations. The JWT secret and the token format are not modelled beyond "non-empty, no space".
- The text of zod's error messages (`err.errors[0].message`) is not modelled: a 400 carries the name of the first failing field instead.
- The Prisma schema file is not part of this model. The following are therefore not modelled:
  - foreign keys and cascades on delete;
  - uniqueness of (club, user) memberships;
  - the unique email index, which is modelled only as the P2002 outcome on the user table.
  - The default role of a registered user is taken to be USER, as the admin create route spells out.
- `updatedAt` columns are not modelled. Neither are the `createdAt` ties the database breaks in an unspecified order: the model's sort is stable.
- The ORM's handling of a negative `take`, which it treats as taking from the end, is not modelled: a negative skip or take is treated as a rejected query.
- Integers are unbounded, while the ORM's `Int` columns hold 32 bits and it refuses a larger id or number. Such a refusal is not modelled. It gives 500 in a handler with `try` and an unhandled throw elsewhere. The members below therefore differ from the source for numbers beyond 32 bits.
- ClubRoutes.AddMember: a `userId` or club id beyond 32 bits is stored as given, whereas the source answers 500 from its `catch`. Fractional user ids are modelled and answer 500.
- EventRoutes.List: a `clubId`, `page` or `limit` beyond 32 bits filters or pages as given, whereas the source throws unhandled. Fractional club ids are modelled and throw unhandled.
- `parseInt` of `page` and `limit` keeps only the leading integer ("1.5" is 1); the model's `Num(n)` is that integer.
- Characters outside the Basic Multilingual Plane are not modelled. A model string stands for the source string's UTF-16 code units, so `|s|` is JavaScript's `s.length`, which is what zod's `.min(n)` and the form's `trim().length` count. A Dafny `char` cannot hold the two surrogate halves such a character is made of, so a length check on text containing one is not captured.
- SQLite's `LIKE` is case-insensitive for ASCII, but `contains` is modelled as case-sensitive, as the source's comments intend.
- Real `Date` values, time zones, ISO serialisation and locale formatting are not modelled: instants are integers and `now` is a parameter. In the events list an Invalid Date is `BadDate`, and the ORM's refusal of it is `Unhandled`.
- File uploads, disk storage, random file names and the unmounted Cloudinary variant of the clubs router are not modelled: an upload is just the stored path, given as a parameter.
- `Promise.all` parallel reads, concurrency between requests, and HTTP transport are not modelled. What the client sees after an `Unhandled` throw is not modelled: backend/src/index.ts installs no error middleware, so it is Express 5's 500 page or, under Express 4, no answer and an unhandled promise rejection in Node.
- Rendering, layouts, react-query caching and `localStorage` are not modelled: the guards receive `hasToken`, and the pages' query results arrive through `Loaded`.
- ClubForm.ClubFormState.Open: the model takes the form's `description` value to be synced with the editor state at once, whereas React applies the effect at lines 70-72 after the render.
- ClubForm.ClubFormState.Submit: the dialog is modelled for either settlement of `await onSubmit(...)`. `Rejected` is reachable only with a page handler that passes a refusal on (`ClubForm.PageSettles`); the clubs page as written always resolves (`ClubForm.PageSettlesAsWritten`, recorded under "## Findings").
- ClubForm.ClubFormState.Open: the chosen image file is not cleared when the dialog is reopened, as in the source. A file picked and then cancelled is still shown and sent the next time the dialog is saved. This is kept as written, since the dialog displays the chosen file's name.
- The other admin and user pages repeat the events page's page-count and pager arithmetic; only the events page is modelled.
- The `type` filter the client sends to the clubs list is ignored by the backend, and is not modelled.

## Findings

| source | as written | input that shows it | evidently intended | confidence | as-written member | corrected member |
|---|---|---|---|---|---|---|
| frontend/src/pages/admin/Events/index.tsx:101 | "Thêm sự kiện" only opens the dialog. The selection set by "Chi tiết" (lines 186-187) is cleared only after a successful save (line 89), and the dialog's cancel only calls `onOpenChange(false)`. | Press "Chi tiết" on event 7, cancel, press "Thêm sự kiện", save. | The dialog opens in create mode and the save creates a new event. As written it opens in edit mode with event 7's data and overwrites event 7. | not executed | EventsPage.StaleSelectionAsWritten | EventsPage.StaleSelectionCorrected |
| frontend/src/pages/admin/Clubs/index.tsx:63-65 | `handleSubmit` catches every error of the create or update request and only logs it, so the dialog's `await onSubmit(submitData)` (ClubFormDialog.tsx:107) always resolves and its catch at lines 113-122 never runs. | Save a club while the server answers 500. | The dialog stays open and shows the failure message, as the page's comment at line 65 and the dialog's catch both intend. As written the dialog closes, the form is reset and no message appears. | not executed | ClubForm.RefusedSaveAsWritten | ClubForm.RefusedSaveCorrected |
