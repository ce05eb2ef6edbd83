# qrmark core, modelled in Dafny

qrmark is an event-attendance backend written in TypeScript (`index.ts`: Hono
routes over a MySQL store of stored procedures). Most rules of the domain
live inside stored procedures: check-in uniqueness, checkout preconditions,
invitation uniqueness and event status. This project models the parts that
the TypeScript decides itself, with the database, the JWT library, the QR
codec and the clock treated as parameters (the procedure's `out0`, the rows a
lookup returns, the decoded token):

- `sql.dfy` (module `Sql`): how `Database.callProcedure` and
  `Database.executeWithOutParams` build their SQL text. This covers the `?` /
  `@outN` argument list, the `SET @outN = NULL;` prologue, the
  `SELECT @out0, …` list, and the `out0 … out{m-1}` record read back from the
  first row. The building loops are methods proved against specification
  functions, and the shapes of those functions are proved as lemmas.
- `auth.dfy` (module `Auth`): the request gates `authenticate`,
  `authorize(roles)` and the two `authMiddleware` chains, with the gate in
  front of every route.
- `backend.dfy` (module `Backend`): the rows the services read and the emails
  `EmailService` builds. A `Journal` object records, in order, the procedures
  a service calls and the emails it sends.
- `events.dfy` (module `Events`): `EventService`. This covers the arguments
  of `sp_CreateEvent` / `sp_UpdateEvent` (`|| null` against
  `=== undefined ? null`), the recipients of an update, cancellation or
  deletion (the first-occurrence-ordered set of attendance emails followed by
  ACCEPTED-invitation emails), and when those emails go out.
- `invitations.dfy` (module `Invitations`): `InvitationService.createInvitation`,
  `bulkCreateInvitations` and `inviteList`. This covers the parsing of the id
  list, which invitations are announced, to which address, and the loops that
  send them.
- `attendance.dfy` (module `Attendance`): `AttendanceService.processQRToken`,
  a total dispatch from the verified token to one store call and one message.
  It also holds `SecurityUtils.verifyQRToken`, both as written and as
  intended.
- `js.dfy` (module `Js`): the JavaScript semantics the rest depends on:
  values and truthiness, `||`, `===`, `> 0`, `String.prototype.trim`,
  `split` / `join`, `Number()` on decimal integers, and the decimal rendering
  of `${i}`.

Three behaviours of the code are easy to misread; the model follows the
code:

- `bulkCreateInvitations` and `inviteList` announce every PENDING invitation
  of a requested user, not only the ones just created, so a reminder goes out
  again to users invited earlier (`Invitations.BulkRenotifiesPending`).
- A capacity or check-out tolerance of 0 is sent to the store as NULL
  (`Events.ZeroSentAsNull`).
- `authenticate` never answers 'Invalid token': `AuthService.verifyToken`
  already turns a payload without `userId` into 'Authentication failed'.

## Model

| member | source | states |
|---|---|---|
| Js.NatToStringRoundTrip | index.ts:93 | the decimal text of `${i}` reads back as `i` |
| Js.NatToStringInjective | index.ts:93 | distinct indices give distinct texts |
| Js.TrimStartSpec | index.ts:844 | `trim` drops exactly a leading run of white space: the rest is a suffix that starts with a non-space |
| Js.TrimEndSpec | index.ts:844 | `trim` drops exactly a trailing run of white space: the rest is a prefix that ends with a non-space |
| Js.TrimKeepsCore | index.ts:844 | `trim(s)` is the slice of `s` between the leading and trailing white space, and everything outside it is white space |
| Js.TrimIdentity | index.ts:844 | a string that neither starts nor ends with white space is its own trim |
| Js.ToNumberOfNatToString | index.ts:844 | `Number` of a decimal rendering is the number rendered |
| Js.GreaterThanZero | index.ts:837 | `createdCount > 0` holds iff the value converts to a number greater than 0 (`Number()` semantics: null is 0, booleans are 0/1, strings are read as decimals, a date is its time value); undefined and null never pass |
| Js.SplitJoin | index.ts:844 | joining the pieces of `split(c)` with `c` gives back the string |
| Js.SplitPiecesFree | index.ts:844 | no piece of `split(c)` contains `c` |
| Js.SplitAround | index.ts:844 | splitting `s + c + t` splits `s` and `t` separately |
| Js.SplitNoSeparator | index.ts:844 | a string without `c` splits into itself alone |
| Js.JoinSplit | index.ts:844 | splitting a join of `c`-free pieces gives back exactly those pieces |
| Sql.BuildStatements | index.ts:86-98 | the two loops and the `substring` build exactly the argument list, the SET prologue and the SELECT list of the specification functions |
| Sql.TerminatedIsJoinPlusSep | index.ts:98 | dropping the last two characters of the loop-built list removes exactly the trailing `, ` |
| Sql.PlaceholderQuestionMarks | index.ts:89-91 | the CALL argument list holds exactly one `?` per bound value |
| Sql.PlaceholderOutMarks | index.ts:92-97 | the CALL argument list holds exactly one `@` per OUT parameter |
| Sql.PlaceholdersEnds | index.ts:98 | the argument list is empty iff there is nothing to bind (`CALL p()`); otherwise it ends on its last slot, never on the `, ` separator |
| Sql.SetPrologueClauses | index.ts:95 | the prologue is the clauses `SET @out{i} = NULL;` in index order, each followed by a space, and is empty iff there is no OUT parameter |
| Sql.SelectListEmptyIff | index.ts:108 | the SELECT list is empty iff there is no OUT parameter, so the SELECT runs exactly when there are OUT parameters |
| Sql.SelectListMarks | index.ts:96 | the SELECT list names one `@out` variable per OUT parameter |
| Sql.OutKeysDistinct | index.ts:110-112 | distinct indices give distinct variable names and record keys |
| Sql.CollectOutParams | index.ts:107-113 | the third loop yields `{}` without OUT parameters, fails without a first row, and otherwise yields the OUT record of the first row |
| Sql.OutRecordExact | index.ts:110-113 | the OUT record has exactly the keys `out0 … out{m-1}`, each holding column `@out{i}` of the row |
| Sql.ExecuteWithOutParams | index.ts:81-129 | statements sent in order (SET only when m > 0, CALL, SELECT only after a successful CALL with m > 0); the CALL's error is rethrown; otherwise the rows and the OUT record are returned |
| Sql.CallProcedurePlaceholders | index.ts:64-65 | `callProcedure` sends `CALL p()` without parameters, and otherwise `CALL p(?,…,?)`: exactly `n` question marks, which split at `,` into `n` pieces `?` |
| Auth.VerifyToken | index.ts:371-380 | succeeds iff the JWT verifies to a payload with a truthy `userId`, which it returns; every failure is 'Authentication failed' |
| Auth.Authenticate | index.ts:1286-1308 | 401 'Authentication required' without a header, 401 'Invalid token format' iff the second word is missing or empty, 401 'Authentication failed' when a present token fails to verify, proceeds iff the token verifies, with `user` set to the payload; every rejection is a 401 |
| Auth.Authorize | index.ts:1310-1323 | 401 iff there is no user or role, 403 iff the role is not among `roles`, proceed iff it is, with `user` unchanged |
| Auth.RoleChains | index.ts:1325-1329 | `moderator` admits exactly authenticated MODERATOR and ORGANIZER callers and `organizer` exactly ORGANIZER callers; a USER gets 403 from both |
| Auth.RunGuard | index.ts:1286-1329 | a public route proceeds with no user; any other route first authenticates and passes on its rejection; a role-gated route then proceeds iff the authenticated role is among its roles, with the authenticated user |
| Auth.GuardFailures | index.ts:1286-1329 | a public route never rejects; a guarded route rejects only with 401 or 403, and 403 only after authentication succeeded on a role-gated route |
| Auth.GuardTable | index.ts:1276-1398 | only `/process-qr` is for moderators; the user list, promote, demote, and the writes to events, locations and distribution lists, and creating and deleting invitations, are for organizers; answering an invitation and editing one's own profile need only a signed-in caller; only health, register and login are public |
| Auth.UserNeverScansOrPromotes | index.ts:1341-1342 | a caller with role USER is answered 403 on `/process-qr`, promote, demote and every organizer route |
| Backend.Journal.Call | index.ts:60-79 | a procedure call is appended to the journal; the outbox is unchanged |
| Backend.Journal.Send | index.ts:180-186 | a send always succeeds and appends the email to the outbox |
| Backend.Journal.SendAll | index.ts:570-571 | sending a list of emails appends exactly that list, in order |
| Backend.DistinctOccursOnce | index.ts:599 | in a list without repetitions, every element occurs exactly once |
| Events.OrNullKeepsTruthy | index.ts:545-553 | the fallback to null keeps exactly the truthy values; 0, "" and false become NULL |
| Events.CreateEventArgs | index.ts:506-522 | the 12 arguments in procedure order; the three flags are NULL iff undefined or null and are otherwise kept (false included); capacity, tolerance and pattern are NULL iff falsy |
| Events.UpdateEventArgs | index.ts:543-557 | the 11 arguments, id first and organizer last; every field NULL iff falsy except the two flags, NULL iff undefined or null |
| Events.ZeroSentAsNull | index.ts:515-517 | capacity 0 and tolerance 0 reach both procedures as NULL, while a `false` flag is sent as `false` |
| Events.EmailsOfAttendances | index.ts:573-580 | an address is listed iff it is truthy and is the email of some attendance row |
| Events.EmailsOfAttendancesAppend | index.ts:573-580 | the mapping and filter work row by row, in order: the addresses of `a + b` are those of `a` followed by those of `b` |
| Events.EmailsOfAccepted | index.ts:581-591 | an address is listed iff it is truthy and is the email of some ACCEPTED invitation row |
| Events.EmailsOfAcceptedAppend | index.ts:581-591 | the filter and mapping work row by row, in order: the addresses of `a + b` are those of `a` followed by those of `b` |
| Events.Dedup | index.ts:599 | `[...new Set(s)]` holds the same elements as `s`, with no repetition |
| Events.FirstIndex | index.ts:599 | the first position at which an element occurs |
| Events.DedupOrder | index.ts:599 | `[...new Set(s)]` keeps the elements in the order of their first occurrence in `s` |
| Events.Recipients | index.ts:597-599 | an address is a recipient iff it is an attendance address or an ACCEPTED-invitation address; no repetitions; nobody when both lookups failed |
| Events.RecipientsExact | index.ts:597-599 | an address is a recipient iff it is truthy and belongs to an attendance or an ACCEPTED invitation of a lookup that succeeded; no repetitions; first-occurrence order |
| Events.CancellationEmails | index.ts:601-603 | one cancellation email per recipient, in order, with the event's title |
| Events.CancellationEmailsKind | index.ts:215-221 | every cancellation email has subject 'Event Cancelled' and type `EVENT_UPDATE`, goes to a recipient and carries the event's title |
| Events.RemovalNotifiesEachOnce | index.ts:599-604 | nothing is sent unless the event exists and `out0 === 1`; then each recipient gets exactly one email and nobody else gets any |
| Events.RemoveEvent | index.ts:592-606 | the journal grows by the event lookup, then (for an existing event) both recipient lookups before the procedure; the outbox by the removal emails; 'Event not found', the procedure's error, or `out0 === 1` is returned |
| Events.DeleteEvent | index.ts:592-606 | `deleteEvent` is the removal with `sp_DeleteEvent` |
| Events.CancelEvent | index.ts:627-641 | `cancelEvent` is the removal with `sp_CancelEvent` |
| Events.CreateEvent | index.ts:492-525 | one `sp_CreateEvent` call with the marshalled arguments, no email, and `out0` returned unchanged |
| Events.UpdateEmails | index.ts:566-572 | one update email per recipient, in order, with the event's title and id |
| Events.UpdateEvent | index.ts:526-565 | the update, then the reload only after `out0 === 1`, then the lookups and the update emails only for a published event; the result is `out0 === 1` or the procedure's error |
| Events.UpdateNotifiesEachOnce | index.ts:558-571 | an update that notifies tells each recipient exactly once and nobody else |
| Invitations.ParseIds | index.ts:844 | one requested id per comma-separated piece, in order: the `k`-th is `Number` of the `k`-th piece, trimmed |
| Invitations.NumbersOf | index.ts:844 | `map` keeps length and order: the `k`-th result is `Number(parts[k].trim())` |
| Invitations.ParseIdsRoundTrip | index.ts:844 | a non-empty list of ids written in decimal and joined by commas reads back as exactly those ids, in order |
| Invitations.NumbersOfDecimals | index.ts:844 | `Number(id.trim())` of each decimal rendering is the id rendered |
| Invitations.BlankIdsRequestZero | index.ts:844 | an empty or blank id list requests user 0, since `Number("")` is 0 |
| Invitations.SpacedIdsRead | index.ts:844 | spaces around the ids are ignored: "7, 8" requests 7 and 8 |
| Invitations.PendingFor | index.ts:845 | an invitation is chosen iff it is one of the event's invitations, its user is requested and it is PENDING; never more than the event's invitations |
| Invitations.PendingForAppend | index.ts:845 | `filter` works row by row, in order: the choice from `a + b` is the choice from `a` followed by the choice from `b` |
| Invitations.PendingForRowsWithId | index.ts:845 | the filter keeps some rows and adds none: no more rows with a given id than before |
| Invitations.EmailsToUsersExact | index.ts:846-851 | an email is sent iff it is the invitation email of some chosen invitation whose user has a truthy address |
| Invitations.FindMember | index.ts:870 | `find` gives nothing iff no member has the id, and otherwise the first member with it |
| Invitations.FirstWithIdUnique | index.ts:870 | the first member with a given id is unique |
| Invitations.EmailsToMembersExact | index.ts:869-874 | an email is sent iff it is the invitation email of some chosen invitation whose first matching member has a truthy address |
| Invitations.AnnounceToUsers | index.ts:846-851 | the loop makes one user lookup per chosen invitation, in order, and sends exactly `EmailsToUsers` |
| Invitations.AnnounceToMembers | index.ts:869-874 | the loop makes no store call and sends exactly `EmailsToMembers` |
| Invitations.CreateInvitation | index.ts:821-833 | one create call, then the three lookups only for a truthy new id; one email only if the event, sender and invitee with an address were found; `out0` returned unchanged |
| Invitations.CreateEmailsAtMostOne | index.ts:824-830 | at most one email, only to the invitee's address, about the new truthy id |
| Invitations.BulkCreateInvitations | index.ts:834-855 | calls and emails are exactly those of the bulk rules below; the count is returned unchanged |
| Invitations.BulkQuietUnlessCreated | index.ts:837 | without a count > 0 there is no lookup and no email |
| Invitations.BulkEmailsExact | index.ts:837-853 | an email is sent iff the count is > 0, the event and sender exist, and it announces a PENDING invitation of a requested user with a truthy address; no more emails than invitations |
| Invitations.BulkEmailsPerInvitation | index.ts:845-851 | at most one email per invitation: the emails about an invitation id are no more than the invitation rows with that id |
| Invitations.BulkRenotifiesPending | index.ts:845 | one invitation created for "5,6" while another is still PENDING from before: exactly two emails go out, to each user about their own invitation |
| Invitations.InviteList | index.ts:856-878 | calls and emails are exactly those of the list rules below; the count is returned unchanged |
| Invitations.ListQuietUnlessCreated | index.ts:859 | without a count > 0 there is no lookup and no email |
| Invitations.ListEmailsSound | index.ts:859-876 | every email sent announces a PENDING invitation to the first list member with its user id |
| Invitations.ListEmailsComplete | index.ts:859-876 | every such announcement, with a truthy address, is sent once the count is > 0 and the event and sender exist |
| Invitations.ListEmailsExact | index.ts:859-876 | both directions together, and no more emails than invitations |
| Invitations.ListEmailsPerInvitation | index.ts:867-874 | at most one email per invitation: the emails about an invitation id are no more than the invitation rows with that id |
| Attendance.ProcessQRToken | index.ts:722-741 | a store call is made iff the token verifies with truthy ids and a known type; it records that kind for the token's ids and the scanner; success iff that call answered 1, and then the message is "Check-in successful" for a check-in and "Check-out successful" for a check-out; without a call the message is 'Invalid QR token' for a missing or falsy id or type and otherwise 'Invalid QR token type', whatever the store would answer; errors become their message |
| Attendance.ScanMessages | index.ts:725-739 | the messages of each outcome of a verified token: 'Invalid QR token' and 'Invalid QR token type' whatever the store would answer, and for a recorded scan the store answered "Check-in successful"/"Check-in failed" for a check-in token and "Check-out successful"/"Check-out failed" for a check-out token; when the store answered, the message says success iff the scan succeeded |
| Attendance.ZeroIdRejected | index.ts:725 | an id of 0 counts as missing: 'Invalid QR token', with no store call |
| Attendance.VerifyQRTokenAsWritten | index.ts:155-168 | the shipped check rejects every token |
| Attendance.ShippedVerifierRejectsAll | index.ts:155-168 | with the shipped check, every scan reports 'Invalid QR token format' and never reaches the store |
| Attendance.VerifyQRTokenSigned | index.ts:155-168 | the intended check accepts a token iff its signature is the signature of its payload, and returns the payload |
| Attendance.SignedTokenRoundTrip | index.ts:145-168 | with the intended check, a token issued for a check-in records exactly that check-in, on behalf of the scanner |

## Left out

- Database I/O: the pool, connections, transactions and the release (index.ts:41-59, 66-70, 99-128). Every store answer is a parameter.
- The rules inside the stored procedures (attendance uniqueness, checkout preconditions, invitation uniqueness, status transitions). Their bodies are not part of the source, so their answers are free parameters.
- Sql.CollectOutParams: the error for a missing first row is the TypeError text of Bun's JavaScriptCore engine; the texts other engines give are not modelled.
- Sql.ExecuteWithOutParams: the error for a missing first row is the TypeError text of Bun's JavaScriptCore engine; the texts other engines give are not modelled.
- Sql.ExecuteWithOutParams: does not model the rewriting of `SQLSTATE[45000]` messages (index.ts:119-124); an error is passed on with its message unchanged, because the extraction depends on JavaScript regular-expression semantics.
- The QR codec: `JSON.stringify`, base64 (RFC 4648) and bcrypt through `Bun.password.hash`. A decoded token is a datatype, and the signature is a parameter function.
- JWT signing and verification (RFC 7519), password hashing, and `Date.now`: foreign calls and the clock. `verify` is a parameter.
- The text of the emails and their locale date formatting; each email keeps only its recipient and template data.
- HTTP: the Hono app, zod validation, the controllers and the response bodies. Only the gate in front of each route is kept.
- `Promise.all`: the concurrent sends are modelled as sends in list order.
- The journal keeps the procedure calls and the emails as two separate sequences, so the interleaving between a call and an email is not captured.
- Js.ToNumber: `Number()` is modelled only on optionally signed decimal integers. Every other string is read as NaN (`None`), unlike JavaScript. This includes fractions, exponents, `0x`/`0o`/`0b` literals and Infinity. So a requested id "0x10" asks for user 16 in the program and for nobody in the model.
- Events.RemoveEvent: does not model a failure of the `sp_GetEventById` lookup itself, only a missing row.
- Events.UpdateEvent: does not model a failure of the reload after the update, only a missing row.
- Invitations.CreateInvitation: does not model the lookups that follow the procedure throwing; they only return a row or none.
- Invitations.BulkCreateInvitations: does not model the lookups that follow the procedure throwing; they only return a row or none.
- Invitations.InviteList: does not model the lookups that follow the procedure throwing; they only return rows.
- Attendance.ProcessQRToken: the error of a lookup is modelled as a message only, so an error without a message is not distinguished.
- The other service operations are outside this model: the getters, `publishEvent`, `respondToInvitation`, `deleteInvitation`, locations, distribution lists and user profiles. Most of them call one stored procedure and return its rows or `out0`.
- `promoteToModerator` and `demoteToUser` (index.ts:414-437): after `out0 === 1` they look up the user's email and the acting user and send a role-change email when both exist. These steps are not modelled.
- `generateCheckinQR` and `generateCheckoutQR` (index.ts:682-720): the event and user lookups, the 'Event or user not found' error and the token they issue are not modelled beyond the payload that `Attendance.SignedTokenRoundTrip` starts from.
- `sendReminderEmail` (index.ts:222-229) is never called in the source and is not modelled.

## Findings

| source | as written | input that shows it | evidently intended | confidence | as-written member | corrected member |
|---|---|---|---|---|---|---|
| index.ts:155-168 | `verifyQRToken` compares the token's signature with `Bun.password.hash(...)`, a promise that is never awaited, and with a salted hash; the comparison `!==` always holds, and the `catch` relabels the failure | any token, including one just issued by `generateQRToken` for a check-in | a token whose signature is the deterministic keyed signature of its payload is accepted and yields the payload | not executed | Attendance.ShippedVerifierRejectsAll | Attendance.SignedTokenRoundTrip |
