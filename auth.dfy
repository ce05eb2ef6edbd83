/** The request gates of index.ts: `authenticate` (a valid bearer JWT is
    required), `authorize(roles)` (the caller's role must be one of `roles`),
    the two chains `authMiddleware.moderator` and `authMiddleware.organizer`,
    and which gate guards each route.

    A gate either answers the request itself with an error status, or calls
    `next()` exactly once, with the decoded token stored as `user`. JWT
    verification (`hono/jwt` `verify`) is a parameter: it maps a token to the
    decoded payload, or to `None` when it throws. */
module Auth {
  import opened Js

  datatype Role = User | Moderator | Organizer

  /** The string value of each `UserRole` member. */
  function RoleName(r: Role): string {
    match r
    case User => "USER"
    case Moderator => "MODERATOR"
    case Organizer => "ORGANIZER"
  }

  /** The fields of a decoded JWT payload that the gates read. */
  datatype Claims = Claims(userId: Value, role: Value)

  /** What a gate does with a request: answer it with `{success: false, error}`
      and an HTTP status, or call `next()` once with `user` set as given. */
  datatype Gate = Reject(status: int, error: string) | Proceed(user: Option<Claims>)

  /** The part after the first space of an Authorization header:
      `header.split(' ')[1]`, or `None` for `undefined`. */
  function SecondWord(header: string): Option<string> {
    var parts := Split(header, ' ');
    if |parts| > 1 then Some(parts[1]) else None
  }

  /** `AuthService.verifyToken` (index.ts:371-380): every failure, including a
      payload without a truthy `userId`, is rethrown as 'Authentication failed'. */
  function VerifyToken(token: string, jwtVerify: string -> Option<Claims>): (r: Result<Claims>)
    ensures r.Ok? <==> jwtVerify(token).Some? && Truthy(jwtVerify(token).value.userId)
    ensures r.Ok? ==> r.value == jwtVerify(token).value
    ensures r.Err? ==> r.message == "Authentication failed"
  {
    match jwtVerify(token)
    case None => Err("Authentication failed")
    case Some(decoded) =>
      if !Truthy(decoded.userId) then Err("Authentication failed") else Ok(decoded)
  }

  /** `authenticate` (index.ts:1286-1308). `header` is the Authorization header,
      `None` when absent. The check at index.ts:1299 can never fire, because
      `verifyToken` already rejects such payloads by throwing; so the reply
      'Invalid token' is never given. */
  function Authenticate(header: Option<string>, jwtVerify: string -> Option<Claims>): (r: Gate)
    ensures r.Reject? ==> r.status == 401
    ensures header.None? || header.value == "" ==> r == Reject(401, "Authentication required")
    ensures header.Some? && header.value != "" ==>
              var w := SecondWord(header.value);
              (w.None? || w.value == "" <==> r == Reject(401, "Invalid token format"))
    ensures r.Proceed? <==>
              && header.Some? && header.value != ""
              && SecondWord(header.value).Some? && SecondWord(header.value).value != ""
              && VerifyToken(SecondWord(header.value).value, jwtVerify).Ok?
    ensures r.Proceed? ==> r.user == Some(jwtVerify(SecondWord(header.value).value).value)
    ensures r.Proceed? ==> Truthy(r.user.value.userId)
    ensures header.Some? && header.value != ""
            && SecondWord(header.value).Some? && SecondWord(header.value).value != ""
            && VerifyToken(SecondWord(header.value).value, jwtVerify).Err?
            ==> r == Reject(401, "Authentication failed")
    ensures r.Reject? ==> r.error in {"Authentication required", "Invalid token format", "Authentication failed"}
  {
    if header.None? || header.value == "" then
      Reject(401, "Authentication required")
    else
      var token := SecondWord(header.value);
      if token.None? || token.value == "" then
        Reject(401, "Invalid token format")
      else
        match VerifyToken(token.value, jwtVerify)
        case Err(message) => Reject(401, if message != "" then message else "Authentication failed")
        case Ok(payload) =>
          if !Truthy(payload.userId) then Reject(401, "Invalid token")
          else Proceed(Some(payload))
  }

  /** `roles.includes(user.role)` */
  predicate Admits(roles: seq<Role>, role: Value) {
    exists r :: r in roles && role == Str(RoleName(r))
  }

  /** `authorize(roles)` (index.ts:1310-1323) given the `user` that
      `authenticate` stored. */
  function Authorize(roles: seq<Role>, user: Option<Claims>): (r: Gate)
    ensures r == Reject(401, "Authentication required") <==> user.None? || !Truthy(user.value.role)
    ensures r == Reject(403, "Insufficient permissions") <==>
              user.Some? && Truthy(user.value.role) && !Admits(roles, user.value.role)
    ensures r.Proceed? <==> user.Some? && Admits(roles, user.value.role)
    ensures r.Proceed? ==> r.user == user
  {
    if user.None? || !Truthy(user.value.role) then
      Reject(401, "Authentication required")
    else if !Admits(roles, user.value.role) then
      Reject(403, "Insufficient permissions")
    else
      Proceed(user)
  }

  /** The guard placed in front of a route. */
  datatype Guard = Public | Authenticated | ModeratorOnly | OrganizerOnly

  /** The roles `authMiddleware.moderator` and `authMiddleware.organizer` pass
      to `authorize` (index.ts:1325-1329). */
  function GuardRoles(g: Guard): seq<Role> {
    match g
    case ModeratorOnly => [Moderator, Organizer]
    case OrganizerOnly => [Organizer]
    case _ => []
  }

  /** Running a route's guard chain: nothing for a public route, `authenticate`
      alone, or `authenticate` then `authorize(roles)`. */
  function RunGuard(g: Guard, header: Option<string>, jwtVerify: string -> Option<Claims>): (r: Gate)
    ensures g == Public ==> r == Proceed(None)
    ensures g != Public && Authenticate(header, jwtVerify).Reject? ==> r == Authenticate(header, jwtVerify)
    ensures g != Public && r.Proceed? ==> r == Authenticate(header, jwtVerify)
    ensures g in {ModeratorOnly, OrganizerOnly} && Authenticate(header, jwtVerify).Proceed? ==>
              (r.Proceed? <==> Admits(GuardRoles(g), Authenticate(header, jwtVerify).user.value.role))
  {
    match g
    case Public => Proceed(None)
    case Authenticated => Authenticate(header, jwtVerify)
    case _ =>
      match Authenticate(header, jwtVerify)
      case Reject(status, error) => Reject(status, error)
      case Proceed(user) => Authorize(GuardRoles(g), user)
  }

  /** `authMiddleware.moderator` admits a request exactly when it authenticates
      with role MODERATOR or ORGANIZER; `authMiddleware.organizer` exactly when
      it authenticates with role ORGANIZER. An authenticated USER gets 403. */
  lemma RoleChains(header: Option<string>, jwtVerify: string -> Option<Claims>)
    ensures var a := Authenticate(header, jwtVerify);
      && (RunGuard(ModeratorOnly, header, jwtVerify).Proceed? <==>
            a.Proceed? && a.user.value.role in {Str("MODERATOR"), Str("ORGANIZER")})
      && (RunGuard(OrganizerOnly, header, jwtVerify).Proceed? <==>
            a.Proceed? && a.user.value.role == Str("ORGANIZER"))
      && (a.Proceed? && a.user.value.role == Str("USER") ==>
            RunGuard(ModeratorOnly, header, jwtVerify) == Reject(403, "Insufficient permissions")
            && RunGuard(OrganizerOnly, header, jwtVerify) == Reject(403, "Insufficient permissions"))
  {
    var a := Authenticate(header, jwtVerify);
    if a.Proceed? {
      var role := a.user.value.role;
      assert Admits([Moderator, Organizer], role) <==> role in {Str("MODERATOR"), Str("ORGANIZER")} by {
        if role == Str("MODERATOR") {
          assert Moderator in [Moderator, Organizer];
        } else if role == Str("ORGANIZER") {
          assert Organizer in [Moderator, Organizer];
        }
      }
      assert Admits([Organizer], role) <==> role == Str("ORGANIZER") by {
        if role == Str("ORGANIZER") {
          assert Organizer in [Organizer];
        }
      }
    }
  }

  /** A failing chain never reaches the handler, and every failure of a guarded
      route is a 401 or a 403. */
  lemma GuardFailures(g: Guard, header: Option<string>, jwtVerify: string -> Option<Claims>)
    ensures var r := RunGuard(g, header, jwtVerify);
      r.Reject? ==> g != Public && (r.status == 401 || r.status == 403)
    ensures var r := RunGuard(g, header, jwtVerify);
      r.Reject? && r.status == 403 ==> g in {ModeratorOnly, OrganizerOnly} && Authenticate(header, jwtVerify).Proceed?
  {
  }

  // ---------------------------------------------------------------------------
  // The routes (index.ts:1276-1398)

  datatype Verb = Get | Post | Put | Delete

  datatype Endpoint =
    | Health
    | AuthRegister | AuthLogin | AuthCheckToken | AuthChangePassword
    | UsersGetMe | UsersPutMe | UsersList | UsersPromote | UsersDemote
    | LocationsCreate | LocationsList | LocationsGet | LocationsUpdate | LocationsDelete
    | EventsCreate | EventsByOrganizer | EventsUpcoming | EventsInProgress | EventsOfUser
    | EventsGet | EventsUpdate | EventsDelete | EventsPublish | EventsCancel
    | EventsAttendances | EventsStats | EventsInvitations | EventsCheckinQr | EventsCheckoutQr
    | AttendancesOfUser | AttendancesProcessQr
    | ListsCreate | ListsOfOrganizer | ListsUpdate | ListsDelete | ListsGet
    | ListsAddMembers | ListsRemoveMember | ListsMembers
    | InvitationsCreate | InvitationsBulk | InvitationsList | InvitationsOfUser
    | InvitationsRespond | InvitationsGet | InvitationsDelete | InvitationsPendingOfUser

  /** An endpoint's verb, full path and guard, as the route table registers it. */
  datatype RouteSpec = RouteSpec(verb: Verb, path: string, guard: Guard)

  function Route(e: Endpoint): RouteSpec {
    match e
    case Health => RouteSpec(Get, "/api/health", Public)
    case AuthRegister => RouteSpec(Post, "/api/auth/register", Public)
    case AuthLogin => RouteSpec(Post, "/api/auth/login", Public)
    case AuthCheckToken => RouteSpec(Get, "/api/auth/check-token", Authenticated)
    case AuthChangePassword => RouteSpec(Post, "/api/auth/change-password", Authenticated)
    case UsersGetMe => RouteSpec(Get, "/api/users/me", Authenticated)
    case UsersPutMe => RouteSpec(Put, "/api/users/me", Authenticated)
    case UsersList => RouteSpec(Get, "/api/users", OrganizerOnly)
    case UsersPromote => RouteSpec(Post, "/api/users/:id/promote", OrganizerOnly)
    case UsersDemote => RouteSpec(Post, "/api/users/:id/demote", OrganizerOnly)
    case LocationsCreate => RouteSpec(Post, "/api/locations", OrganizerOnly)
    case LocationsList => RouteSpec(Get, "/api/locations", Authenticated)
    case LocationsGet => RouteSpec(Get, "/api/locations/:id", Authenticated)
    case LocationsUpdate => RouteSpec(Put, "/api/locations/:id", OrganizerOnly)
    case LocationsDelete => RouteSpec(Delete, "/api/locations/:id", OrganizerOnly)
    case EventsCreate => RouteSpec(Post, "/api/events", OrganizerOnly)
    case EventsByOrganizer => RouteSpec(Get, "/api/events/organizer", OrganizerOnly)
    case EventsUpcoming => RouteSpec(Get, "/api/events/upcoming", Authenticated)
    case EventsInProgress => RouteSpec(Get, "/api/events/in-progress", Authenticated)
    case EventsOfUser => RouteSpec(Get, "/api/events/user", Authenticated)
    case EventsGet => RouteSpec(Get, "/api/events/:id", Authenticated)
    case EventsUpdate => RouteSpec(Put, "/api/events/:id", OrganizerOnly)
    case EventsDelete => RouteSpec(Delete, "/api/events/:id", OrganizerOnly)
    case EventsPublish => RouteSpec(Post, "/api/events/:id/publish", OrganizerOnly)
    case EventsCancel => RouteSpec(Post, "/api/events/:id/cancel", OrganizerOnly)
    case EventsAttendances => RouteSpec(Get, "/api/events/:id/attendances", Authenticated)
    case EventsStats => RouteSpec(Get, "/api/events/:id/stats", Authenticated)
    case EventsInvitations => RouteSpec(Get, "/api/events/:id/invitations", Authenticated)
    case EventsCheckinQr => RouteSpec(Get, "/api/events/:id/checkin-qr", Authenticated)
    case EventsCheckoutQr => RouteSpec(Get, "/api/events/:id/checkout-qr", Authenticated)
    case AttendancesOfUser => RouteSpec(Get, "/api/attendances/user", Authenticated)
    case AttendancesProcessQr => RouteSpec(Post, "/api/attendances/process-qr", ModeratorOnly)
    case ListsCreate => RouteSpec(Post, "/api/lists", OrganizerOnly)
    case ListsOfOrganizer => RouteSpec(Get, "/api/lists", OrganizerOnly)
    case ListsUpdate => RouteSpec(Put, "/api/lists/:id", OrganizerOnly)
    case ListsDelete => RouteSpec(Delete, "/api/lists/:id", OrganizerOnly)
    case ListsGet => RouteSpec(Get, "/api/lists/:id", Authenticated)
    case ListsAddMembers => RouteSpec(Post, "/api/lists/:id/members", OrganizerOnly)
    case ListsRemoveMember => RouteSpec(Delete, "/api/lists/:id/members/:userId", OrganizerOnly)
    case ListsMembers => RouteSpec(Get, "/api/lists/:id/members", Authenticated)
    case InvitationsCreate => RouteSpec(Post, "/api/invitations", OrganizerOnly)
    case InvitationsBulk => RouteSpec(Post, "/api/invitations/bulk", OrganizerOnly)
    case InvitationsList => RouteSpec(Post, "/api/invitations/list", OrganizerOnly)
    case InvitationsOfUser => RouteSpec(Get, "/api/invitations/user", Authenticated)
    case InvitationsRespond => RouteSpec(Post, "/api/invitations/:id/respond", Authenticated)
    case InvitationsGet => RouteSpec(Get, "/api/invitations/:id", Authenticated)
    case InvitationsDelete => RouteSpec(Delete, "/api/invitations/:id", OrganizerOnly)
    case InvitationsPendingOfUser => RouteSpec(Get, "/api/invitations/user/pending", Authenticated)
  }

  /** The gate a request to `e` passes through. */
  function Admission(e: Endpoint, header: Option<string>, jwtVerify: string -> Option<Claims>): Gate {
    RunGuard(Route(e).guard, header, jwtVerify)
  }

  /** Only `/process-qr` is for moderators. The user list, promote, demote,
      and the writes to events, locations and lists, as well as creating
      (directly, in bulk or from a list) and deleting invitations, are for
      organizers. Answering an invitation and editing one's own profile only
      need a signed-in caller. Only health, register and login are public. */
  lemma GuardTable(e: Endpoint)
    ensures Route(e).guard == ModeratorOnly <==> e == AttendancesProcessQr
    ensures (e in {UsersList, UsersPromote, UsersDemote,
                   EventsCreate, EventsUpdate, EventsDelete, EventsPublish, EventsCancel,
                   LocationsCreate, LocationsUpdate, LocationsDelete,
                   ListsCreate, ListsUpdate, ListsDelete, ListsAddMembers, ListsRemoveMember,
                   InvitationsCreate, InvitationsBulk, InvitationsList, InvitationsDelete})
              ==> Route(e).guard == OrganizerOnly
    ensures e in {InvitationsRespond, UsersPutMe} ==> Route(e).guard == Authenticated
    ensures Route(e).guard == Public <==> e in {Health, AuthRegister, AuthLogin}
  {
    match e
    case Health =>
    case AuthRegister =>
    case AuthLogin =>
    case AuthCheckToken =>
    case AuthChangePassword =>
    case UsersGetMe =>
    case UsersPutMe =>
    case UsersList =>
    case UsersPromote =>
    case UsersDemote =>
    case LocationsCreate =>
    case LocationsList =>
    case LocationsGet =>
    case LocationsUpdate =>
    case LocationsDelete =>
    case EventsCreate =>
    case EventsByOrganizer =>
    case EventsUpcoming =>
    case EventsInProgress =>
    case EventsOfUser =>
    case EventsGet =>
    case EventsUpdate =>
    case EventsDelete =>
    case EventsPublish =>
    case EventsCancel =>
    case EventsAttendances =>
    case EventsStats =>
    case EventsInvitations =>
    case EventsCheckinQr =>
    case EventsCheckoutQr =>
    case AttendancesOfUser =>
    case AttendancesProcessQr =>
    case ListsCreate =>
    case ListsOfOrganizer =>
    case ListsUpdate =>
    case ListsDelete =>
    case ListsGet =>
    case ListsAddMembers =>
    case ListsRemoveMember =>
    case ListsMembers =>
    case InvitationsCreate =>
    case InvitationsBulk =>
    case InvitationsList =>
    case InvitationsOfUser =>
    case InvitationsRespond =>
    case InvitationsGet =>
    case InvitationsDelete =>
    case InvitationsPendingOfUser =>
  }

  /** A caller whose token carries role USER never reaches the QR scanner or
      any organizer route: the chain answers 403. */
  lemma UserNeverScansOrPromotes(e: Endpoint, header: Option<string>, jwtVerify: string -> Option<Claims>)
    requires Route(e).guard in {ModeratorOnly, OrganizerOnly}
    requires Authenticate(header, jwtVerify).Proceed?
    requires Authenticate(header, jwtVerify).user.value.role == Str("USER")
    ensures Admission(e, header, jwtVerify) == Reject(403, "Insufficient permissions")
  {
    RoleChains(header, jwtVerify);
  }
}
