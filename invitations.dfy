/** `InvitationService` (index.ts:805-878): creating one invitation, and the
    two bulk operations — an id list and a distribution list — with the choice
    of which invitations are then announced by email.

    Which invitations the store creates, and how many, is decided by its
    procedures; their answer (`out0`) and the rows of the later lookups are
    parameters of each operation. */
module Invitations {
  import opened Js
  import opened Backend

  // ---------------------------------------------------------------------------
  // The requested ids (index.ts:844)

  /** `userIds.split(',').map(id => Number(id.trim()))`, with `None` for NaN:
      one requested id per comma-separated piece, in order. */
  function ParseIds(csv: string): (ids: seq<Option<int>>)
    ensures |ids| == |Split(csv, ',')|
    ensures forall k :: 0 <= k < |ids| ==> ids[k] == ToNumber(Trim(Split(csv, ',')[k]))
  {
    NumbersOf(Split(csv, ','))
  }

  /** `parts.map(id => Number(id.trim()))` */
  function NumbersOf(parts: seq<string>): (ids: seq<Option<int>>)
    ensures |ids| == |parts|
    ensures forall k :: 0 <= k < |parts| ==> ids[k] == ToNumber(Trim(parts[k]))
  {
    if parts == [] then [] else NumbersOf(parts[..|parts| - 1]) + [ToNumber(Trim(parts[|parts| - 1]))]
  }

  /** The decimal renderings of `ns`. */
  function Decimals(ns: seq<nat>): (items: seq<string>)
    ensures |items| == |ns|
    ensures forall k :: 0 <= k < |ns| ==> items[k] == NatToString(ns[k])
  {
    if ns == [] then [] else Decimals(ns[..|ns| - 1]) + [NatToString(ns[|ns| - 1])]
  }

  /** The ids as `Number` values. */
  function AsNumbers(ns: seq<nat>): (ids: seq<Option<int>>)
    ensures |ids| == |ns|
  {
    if ns == [] then [] else AsNumbers(ns[..|ns| - 1]) + [Some(ns[|ns| - 1] as int)]
  }

  /** The comma-separated decimal list a client sends for `ns`. */
  function IdList(ns: seq<nat>): string {
    Join(Decimals(ns), ",")
  }

  /** Reading back a non-empty list of ids written in decimal and joined by
      commas gives exactly those ids, in order. */
  lemma ParseIdsRoundTrip(ns: seq<nat>)
    requires |ns| >= 1
    ensures ParseIds(IdList(ns)) == AsNumbers(ns)
  {
    var items := Decimals(ns);
    forall k | 0 <= k < |items| ensures ',' !in items[k] {
      assert AllDigits(items[k]);
    }
    JoinSplit(items, ',');
    NumbersOfDecimals(ns);
  }

  lemma {:induction false} NumbersOfDecimals(ns: seq<nat>)
    ensures NumbersOf(Decimals(ns)) == AsNumbers(ns)
  {
    if ns != [] {
      var n := ns[|ns| - 1];
      NumbersOfDecimals(ns[..|ns| - 1]);
      var s := NatToString(n);
      assert Decimals(ns)[..|ns| - 1] == Decimals(ns[..|ns| - 1]);
      assert IsDigit(s[0]) && IsDigit(s[|s| - 1]);
      TrimIdentity(s);
      ToNumberOfNatToString(n);
    }
  }

  /** An empty or blank id list still requests user 0, since `Number("")` is 0. */
  lemma BlankIdsRequestZero()
    ensures ParseIds("") == [Some(0)]
    ensures ParseIds(" ") == [Some(0)]
  {
    SplitNoSeparator(" ", ',');
    assert TrimStart(" ") == "";
  }

  /** Spaces around an id do not matter. */
  lemma SpacedIdsRead()
    ensures ParseIds("7, 8") == [Some(7), Some(8)]
  {
    SplitSevenEight();
    NumberOfDigit(7);
    NumberOfDigit(8);
    assert Trim("7") == "7" by {
      TrimIdentity("7");
    }
    assert Trim(" 8") == "8" by {
      assert TrimStart(" 8") == "8";
      TrimIdentity("8");
    }
    NumbersOfPair("7", " 8");
  }

  lemma SplitSevenEight()
    ensures Split("7, 8", ',') == ["7", " 8"]
  {
    assert Split("", ',') == [""];
    SplitExtend("", ',', '7');
    assert "" + ['7'] == "7";
    assert Split("7", ',') == ["7"];
    SplitOpen("7", ',');
    assert "7" + [','] == "7,";
    assert Split("7,", ',') == ["7", ""];
    SplitExtend("7,", ',', ' ');
    assert "7," + [' '] == "7, ";
    assert ["7", ""][..1] == ["7"] && "" + [' '] == " ";
    assert Split("7, ", ',') == ["7", " "];
    assert ["7", " "][..1] == ["7"];
    SplitExtend("7, ", ',', '8');
    assert "7, " + ['8'] == "7, 8";
    assert " " + ['8'] == " 8";
  }

  lemma NumberOfDigit(d: nat)
    requires d < 10
    ensures ToNumber([DigitChar(d)]) == Some(d)
  {
    assert NatToString(d) == [DigitChar(d)];
    ToNumberOfNatToString(d);
  }

  lemma NumbersOfPair(a: string, b: string)
    ensures NumbersOf([a, b]) == [ToNumber(Trim(a)), ToNumber(Trim(b))]
  {
    assert [a, b][..1] == [a];
    assert [a][..0] == [];
  }

  /** `userIdArray.includes(v)`: only a number can equal an id read with
      `Number`, and NaN equals none of the stored user ids. */
  predicate RequestedBy(ids: seq<Option<int>>, v: Value) {
    v.Num? && Some(v.n) in ids
  }

  // ---------------------------------------------------------------------------
  // Choosing and announcing invitations (index.ts:845, 847-851, 868, 870-874)

  /** `invitations.filter(inv => requested(inv.userId) && inv.status === 'PENDING')`,
      keeping the order of the rows. */
  function PendingFor(invitations: seq<InvitationRow>, requested: Value -> bool): (r: seq<InvitationRow>)
    ensures |r| <= |invitations|
    ensures forall x :: x in r <==> x in invitations && requested(x.userId) && x.status == Str("PENDING")
  {
    if invitations == [] then []
    else
      var init := invitations[..|invitations| - 1];
      var x := invitations[|invitations| - 1];
      assert invitations == init + [x];
      PendingFor(init, requested) + (if requested(x.userId) && x.status == Str("PENDING") then [x] else [])
  }

  /** The filter works row by row, in order: the choice from `a + b` is the
      choice from `a` followed by the choice from `b`. */
  lemma {:induction false} PendingForAppend(a: seq<InvitationRow>, b: seq<InvitationRow>, requested: Value -> bool)
    ensures PendingFor(a + b, requested) == PendingFor(a, requested) + PendingFor(b, requested)
    decreases |b|
  {
    if b == [] {
      assert a + b == a;
    } else {
      var init := b[..|b| - 1];
      assert (a + b)[..|a + b| - 1] == a + init;
      assert (a + b)[|a + b| - 1] == b[|b| - 1];
      PendingForAppend(a, init, requested);
    }
  }

  /** One `getUserById(invitation.userId)` per chosen invitation, in order. */
  function UserLookups(chosen: seq<InvitationRow>): (r: seq<ProcCall>)
    ensures |r| == |chosen|
  {
    if chosen == [] then []
    else UserLookups(chosen[..|chosen| - 1]) + [ProcCall("sp_GetUserById", [chosen[|chosen| - 1].userId])]
  }

  /** The email `bulkCreateInvitations` sends for one chosen invitation, if its
      user has a truthy email address. */
  function UserInvitationEmail(inv: InvitationRow, users: Value -> Option<UserRow>, title: Value, senderName: Value): Option<Email> {
    var user := users(inv.userId);
    if user.Some? && Truthy(user.value.email)
    then Some(InvitationEmail(user.value.email, title, senderName, inv.id))
    else None
  }

  /** The emails of the `for…of` loop of `bulkCreateInvitations`: at most one
      per chosen invitation. */
  function EmailsToUsers(chosen: seq<InvitationRow>, users: Value -> Option<UserRow>, title: Value, senderName: Value): (r: seq<Email>)
    ensures |r| <= |chosen|
  {
    if chosen == [] then []
    else
      var init := chosen[..|chosen| - 1];
      var inv := chosen[|chosen| - 1];
      assert chosen == init + [inv];
      var e := UserInvitationEmail(inv, users, title, senderName);
      EmailsToUsers(init, users, title, senderName) + (if e.Some? then [e.value] else [])
  }

  /** An email is sent iff it is the email of some chosen invitation. */
  lemma {:induction false} EmailsToUsersExact(chosen: seq<InvitationRow>, users: Value -> Option<UserRow>, title: Value, senderName: Value, e: Email)
    ensures e in EmailsToUsers(chosen, users, title, senderName) <==>
              exists inv :: inv in chosen && UserInvitationEmail(inv, users, title, senderName) == Some(e)
  {
    if chosen != [] {
      var init := chosen[..|chosen| - 1];
      assert chosen == init + [chosen[|chosen| - 1]];
      EmailsToUsersExact(init, users, title, senderName, e);
    }
  }

  /** The number of invitation emails about invitation `id`. */
  function EmailsAbout(emails: seq<Email>, id: Value): nat {
    if emails == [] then 0
    else
      var e := emails[|emails| - 1];
      EmailsAbout(emails[..|emails| - 1], id) + (if e.InvitationEmail? && e.invitationId == id then 1 else 0)
  }

  lemma EmailsAboutSnoc(emails: seq<Email>, e: Email, id: Value)
    ensures EmailsAbout(emails + [e], id)
            == EmailsAbout(emails, id) + (if e.InvitationEmail? && e.invitationId == id then 1 else 0)
  {
    assert (emails + [e])[..|emails|] == emails;
  }

  /** The number of invitation rows with id `id`. */
  function RowsWithId(rows: seq<InvitationRow>, id: Value): nat {
    if rows == [] then 0 else RowsWithId(rows[..|rows| - 1], id) + (if rows[|rows| - 1].id == id then 1 else 0)
  }

  /** The selection keeps some of the rows, so no more rows with a given id. */
  lemma {:induction false} PendingForRowsWithId(rows: seq<InvitationRow>, requested: Value -> bool, id: Value)
    ensures RowsWithId(PendingFor(rows, requested), id) <= RowsWithId(rows, id)
  {
    if rows != [] {
      var init, x := rows[..|rows| - 1], rows[|rows| - 1];
      PendingForRowsWithId(init, requested, id);
      var p := PendingFor(init, requested);
      assert RowsWithId(rows, id) == RowsWithId(init, id) + (if x.id == id then 1 else 0);
      if requested(x.userId) && x.status == Str("PENDING") {
        assert PendingFor(rows, requested) == p + [x];
        RowsWithIdSnoc(p, x, id);
      } else {
        assert PendingFor(rows, requested) == p;
      }
    }
  }

  lemma RowsWithIdSnoc(rows: seq<InvitationRow>, x: InvitationRow, id: Value)
    ensures RowsWithId(rows + [x], id) == RowsWithId(rows, id) + (if x.id == id then 1 else 0)
  {
    assert (rows + [x])[..|rows|] == rows;
  }

  /** The `bulkCreateInvitations` loop announces each invitation at most once. */
  lemma {:induction false} EmailsToUsersPerInvitation(chosen: seq<InvitationRow>, users: Value -> Option<UserRow>, title: Value, senderName: Value, id: Value)
    ensures EmailsAbout(EmailsToUsers(chosen, users, title, senderName), id) <= RowsWithId(chosen, id)
  {
    if chosen != [] {
      var init, inv := chosen[..|chosen| - 1], chosen[|chosen| - 1];
      assert chosen == init + [inv];
      EmailsToUsersPerInvitation(init, users, title, senderName, id);
      var d := EmailsToUsers(init, users, title, senderName);
      var e := UserInvitationEmail(inv, users, title, senderName);
      assert RowsWithId(chosen, id) == RowsWithId(init, id) + (if inv.id == id then 1 else 0);
      if e.Some? {
        assert EmailsToUsers(chosen, users, title, senderName) == d + [e.value];
        EmailsAboutSnoc(d, e.value, id);
      } else {
        assert EmailsToUsers(chosen, users, title, senderName) == d;
      }
    }
  }

  /** `k` is the position of the first member whose id is `id`. */
  predicate FirstWithId(members: seq<MemberRow>, k: int, id: Value) {
    0 <= k < |members| && members[k].id == id && forall i :: 0 <= i < k ==> members[i].id != id
  }

  lemma FirstWithIdUnique(members: seq<MemberRow>, k: int, k': int, id: Value)
    requires FirstWithId(members, k, id) && FirstWithId(members, k', id)
    ensures k == k'
  {
  }

  /** `members.find(m => m.id === id)`: the first member with that id. */
  function FindMember(members: seq<MemberRow>, id: Value): (r: Option<MemberRow>)
    ensures r.None? <==> forall m :: m in members ==> m.id != id
    ensures r.Some? ==> exists k :: FirstWithId(members, k, id) && members[k] == r.value
  {
    if members == [] then None
    else if members[0].id == id then
      assert FirstWithId(members, 0, id);
      Some(members[0])
    else
      var r := FindMember(members[1..], id);
      assert forall m :: m in members ==> m == members[0] || m in members[1..];
      if r.Some? then
        var k :| FirstWithId(members[1..], k, id) && members[1..][k] == r.value;
        assert FirstWithId(members, k + 1, id) by {
          forall i | 0 <= i < k + 1 ensures members[i].id != id {
            if i > 0 {
              assert members[i] == members[1..][i - 1];
            }
          }
        }
        r
      else r
  }

  /** The email `inviteList` sends for one chosen invitation, if the first list
      member with its user id has a truthy email address. */
  function MemberInvitationEmail(inv: InvitationRow, members: seq<MemberRow>, title: Value, senderName: Value): Option<Email> {
    var member := FindMember(members, inv.userId);
    if member.Some? && Truthy(member.value.email)
    then Some(InvitationEmail(member.value.email, title, senderName, inv.id))
    else None
  }

  /** The emails of the `for…of` loop of `inviteList`: at most one per chosen invitation. */
  function EmailsToMembers(chosen: seq<InvitationRow>, members: seq<MemberRow>, title: Value, senderName: Value): (r: seq<Email>)
    ensures |r| <= |chosen|
  {
    if chosen == [] then []
    else
      var init := chosen[..|chosen| - 1];
      var inv := chosen[|chosen| - 1];
      assert chosen == init + [inv];
      var e := MemberInvitationEmail(inv, members, title, senderName);
      EmailsToMembers(init, members, title, senderName) + (if e.Some? then [e.value] else [])
  }

  /** An email is sent iff it is the email of some chosen invitation. */
  lemma {:induction false} EmailsToMembersExact(chosen: seq<InvitationRow>, members: seq<MemberRow>, title: Value, senderName: Value, e: Email)
    ensures e in EmailsToMembers(chosen, members, title, senderName) <==>
              exists inv :: inv in chosen && MemberInvitationEmail(inv, members, title, senderName) == Some(e)
  {
    if chosen != [] {
      var init := chosen[..|chosen| - 1];
      assert chosen == init + [chosen[|chosen| - 1]];
      EmailsToMembersExact(init, members, title, senderName, e);
    }
  }

  /** The `inviteList` loop announces each invitation at most once. */
  lemma {:induction false} EmailsToMembersPerInvitation(chosen: seq<InvitationRow>, members: seq<MemberRow>, title: Value, senderName: Value, id: Value)
    ensures EmailsAbout(EmailsToMembers(chosen, members, title, senderName), id) <= RowsWithId(chosen, id)
  {
    if chosen != [] {
      var init, inv := chosen[..|chosen| - 1], chosen[|chosen| - 1];
      assert chosen == init + [inv];
      EmailsToMembersPerInvitation(init, members, title, senderName, id);
      var d := EmailsToMembers(init, members, title, senderName);
      var e := MemberInvitationEmail(inv, members, title, senderName);
      assert RowsWithId(chosen, id) == RowsWithId(init, id) + (if inv.id == id then 1 else 0);
      if e.Some? {
        assert EmailsToMembers(chosen, members, title, senderName) == d + [e.value];
        EmailsAboutSnoc(d, e.value, id);
      } else {
        assert EmailsToMembers(chosen, members, title, senderName) == d;
      }
    }
  }

  /** The `for…of` loop of `bulkCreateInvitations`: look each chosen
      invitation's user up, and email the ones with a truthy address. */
  method AnnounceToUsers(j: Journal, chosen: seq<InvitationRow>, users: Value -> Option<UserRow>, title: Value, senderName: Value)
    modifies j
    ensures j.calls == old(j.calls) + UserLookups(chosen)
    ensures j.outbox == old(j.outbox) + EmailsToUsers(chosen, users, title, senderName)
  {
    for k := 0 to |chosen|
      invariant j.calls == old(j.calls) + UserLookups(chosen[..k])
      invariant j.outbox == old(j.outbox) + EmailsToUsers(chosen[..k], users, title, senderName)
    {
      assert chosen[..k + 1][..k] == chosen[..k];
      AnnounceToUser(j, chosen[k], users, title, senderName);
    }
    assert chosen[..|chosen|] == chosen;
  }

  /** One turn of that loop: `getUserById`, then the email if the address is truthy. */
  method AnnounceToUser(j: Journal, invitation: InvitationRow, users: Value -> Option<UserRow>, title: Value, senderName: Value)
    modifies j
    ensures j.calls == old(j.calls) + [ProcCall("sp_GetUserById", [invitation.userId])]
    ensures var e := UserInvitationEmail(invitation, users, title, senderName);
            j.outbox == old(j.outbox) + (if e.Some? then [e.value] else [])
  {
    j.Call("sp_GetUserById", [invitation.userId]);
    var user := users(invitation.userId);
    if user.Some? && Truthy(user.value.email) {
      j.Send(InvitationEmail(user.value.email, title, senderName, invitation.id));
    }
  }

  /** The `for…of` loop of `inviteList`: email each chosen invitation to the
      first list member with its user id, when that address is truthy. */
  method AnnounceToMembers(j: Journal, chosen: seq<InvitationRow>, members: seq<MemberRow>, title: Value, senderName: Value)
    modifies j
    ensures j.calls == old(j.calls)
    ensures j.outbox == old(j.outbox) + EmailsToMembers(chosen, members, title, senderName)
  {
    for k := 0 to |chosen|
      invariant j.calls == old(j.calls)
      invariant j.outbox == old(j.outbox) + EmailsToMembers(chosen[..k], members, title, senderName)
    {
      EmailsToMembersStep(chosen, k, members, title, senderName);
      AnnounceToMember(j, chosen[k], members, title, senderName);
    }
    assert chosen[..|chosen|] == chosen;
  }

  /** One turn of that loop: `members.find(…)`, then the email if the address is truthy. */
  method AnnounceToMember(j: Journal, invitation: InvitationRow, members: seq<MemberRow>, title: Value, senderName: Value)
    modifies j
    ensures j.calls == old(j.calls)
    ensures var e := MemberInvitationEmail(invitation, members, title, senderName);
            j.outbox == old(j.outbox) + (if e.Some? then [e.value] else [])
  {
    var member := FindMember(members, invitation.userId);
    if member.Some? && Truthy(member.value.email) {
      j.Send(InvitationEmail(member.value.email, title, senderName, invitation.id));
    }
  }

  /** One more turn of the `inviteList` loop adds the email of invitation `k`, if any. */
  lemma EmailsToMembersStep(chosen: seq<InvitationRow>, k: nat, members: seq<MemberRow>, title: Value, senderName: Value)
    requires k < |chosen|
    ensures var e := MemberInvitationEmail(chosen[k], members, title, senderName);
            EmailsToMembers(chosen[..k + 1], members, title, senderName)
            == EmailsToMembers(chosen[..k], members, title, senderName) + (if e.Some? then [e.value] else [])
  {
    assert chosen[..k + 1][..k] == chosen[..k];
  }

  // ---------------------------------------------------------------------------
  // createInvitation (index.ts:821-833)

  /** The store's answers during one `createInvitation`. */
  datatype CreateReplies = CreateReplies(
    out0: Result<Value>,          // sp_CreateInvitation: the new invitation's id
    event: Option<EventRow>,      // sp_GetEventById
    sender: Option<UserRow>,      // sp_GetUserById(senderId)
    user: Option<UserRow>)        // sp_GetUserById(userId)

  /** `createInvitation` announces the invitation only when the procedure gave
      a truthy id and the event, the sender and the invitee (with a truthy
      address) were all found. */
  function CreateEmails(replies: CreateReplies): seq<Email> {
    if replies.out0.Ok? && Truthy(replies.out0.value) && replies.event.Some? && replies.sender.Some?
       && replies.user.Some? && Truthy(replies.user.value.email)
    then [InvitationEmail(replies.user.value.email, replies.event.value.title,
                          replies.sender.value.fullName, replies.out0.value)]
    else []
  }

  function CreateCalls(eventId: Value, userId: Value, senderId: Value, replies: CreateReplies): seq<ProcCall> {
    [ProcCall("sp_CreateInvitation", [eventId, userId, senderId])]
    + if replies.out0.Ok? && Truthy(replies.out0.value)
      then [ProcCall("sp_GetEventById", [eventId]), ProcCall("sp_GetUserById", [senderId]),
            ProcCall("sp_GetUserById", [userId])]
      else []
  }

  /** `createInvitation`: returns the procedure's `out0` unchanged. */
  method CreateInvitation(j: Journal, eventId: Value, userId: Value, senderId: Value, replies: CreateReplies)
    returns (r: Result<Value>)
    modifies j
    ensures j.calls == old(j.calls) + CreateCalls(eventId, userId, senderId, replies)
    ensures j.outbox == old(j.outbox) + CreateEmails(replies)
    ensures r == replies.out0
  {
    j.Call("sp_CreateInvitation", [eventId, userId, senderId]);
    if replies.out0.Err? {
      return Err(replies.out0.message);
    }
    var invitationId := replies.out0.value;
    if Truthy(invitationId) {
      j.Call("sp_GetEventById", [eventId]);
      j.Call("sp_GetUserById", [senderId]);
      j.Call("sp_GetUserById", [userId]);
      if replies.event.Some? && replies.sender.Some? && replies.user.Some? && Truthy(replies.user.value.email) {
        j.Send(InvitationEmail(replies.user.value.email, replies.event.value.title,
                               replies.sender.value.fullName, invitationId));
      }
    }
    return Ok(invitationId);
  }

  /** At most one email, and only to the invitee's own address about the new id. */
  lemma CreateEmailsAtMostOne(replies: CreateReplies)
    ensures |CreateEmails(replies)| <= 1
    ensures forall e :: e in CreateEmails(replies) ==>
              replies.user.Some? && e.to == replies.user.value.email && e.InvitationEmail?
              && replies.out0.Ok? && e.invitationId == replies.out0.value && Truthy(e.invitationId)
  {
  }

  // ---------------------------------------------------------------------------
  // bulkCreateInvitations (index.ts:834-855)

  /** The store's answers during one `bulkCreateInvitations`. */
  datatype BulkReplies = BulkReplies(
    out0: Result<Value>,                  // sp_BulkCreateInvitations: the created count
    event: Option<EventRow>,              // sp_GetEventById
    sender: Option<UserRow>,              // sp_GetUserById(senderId)
    invitations: seq<InvitationRow>,      // sp_GetInvitationsByEvent
    users: Value -> Option<UserRow>)      // sp_GetUserById(invitation.userId)

  /** Whether the procedure reported `createdCount > 0`. */
  predicate Created(out0: Result<Value>) {
    out0.Ok? && GreaterThanZero(out0.value)
  }

  /** The invitations `bulkCreateInvitations` announces. */
  function BulkChosen(userIds: string, replies: BulkReplies): seq<InvitationRow> {
    var ids := ParseIds(userIds);
    PendingFor(replies.invitations, v => RequestedBy(ids, v))
  }

  /** The procedures `bulkCreateInvitations` calls: the bulk procedure; after a
      positive count the event and sender lookups; if both exist the event's
      invitations and then one user lookup per chosen invitation. */
  function BulkCalls(eventId: Value, userIds: string, senderId: Value, replies: BulkReplies): seq<ProcCall> {
    var bulk := ProcCall("sp_BulkCreateInvitations", [eventId, Str(userIds), senderId]);
    var event := ProcCall("sp_GetEventById", [eventId]);
    var sender := ProcCall("sp_GetUserById", [senderId]);
    if !Created(replies.out0) then [bulk]
    else if replies.event.None? || replies.sender.None? then [bulk, event, sender]
    else [bulk, event, sender, ProcCall("sp_GetInvitationsByEvent", [eventId])] + UserLookups(BulkChosen(userIds, replies))
  }

  function BulkEmails(userIds: string, replies: BulkReplies): seq<Email> {
    if Created(replies.out0) && replies.event.Some? && replies.sender.Some?
    then EmailsToUsers(BulkChosen(userIds, replies), replies.users, replies.event.value.title,
                       replies.sender.value.fullName)
    else []
  }

  /** `bulkCreateInvitations`: returns the procedure's count unchanged. */
  method BulkCreateInvitations(j: Journal, eventId: Value, userIds: string, senderId: Value, replies: BulkReplies)
    returns (r: Result<Value>)
    modifies j
    ensures j.calls == old(j.calls) + BulkCalls(eventId, userIds, senderId, replies)
    ensures j.outbox == old(j.outbox) + BulkEmails(userIds, replies)
    ensures r == replies.out0
  {
    j.Call("sp_BulkCreateInvitations", [eventId, Str(userIds), senderId]);
    if replies.out0.Err? {
      return Err(replies.out0.message);
    }
    var createdCount := replies.out0.value;
    if GreaterThanZero(createdCount) {
      j.Call("sp_GetEventById", [eventId]);
      j.Call("sp_GetUserById", [senderId]);
      if replies.event.Some? && replies.sender.Some? {
        j.Call("sp_GetInvitationsByEvent", [eventId]);
        ghost var lookups := [ProcCall("sp_BulkCreateInvitations", [eventId, Str(userIds), senderId]),
                              ProcCall("sp_GetEventById", [eventId]), ProcCall("sp_GetUserById", [senderId]),
                              ProcCall("sp_GetInvitationsByEvent", [eventId])];
        assert j.calls == old(j.calls) + lookups;
        var newInvitations := BulkChosen(userIds, replies);
        AnnounceToUsers(j, newInvitations, replies.users, replies.event.value.title, replies.sender.value.fullName);
        Regroup(old(j.calls), lookups, UserLookups(newInvitations));
        assert BulkCalls(eventId, userIds, senderId, replies) == lookups + UserLookups(newInvitations);
      }
    }
    return Ok(createdCount);
  }

  lemma Regroup<T>(a: seq<T>, b: seq<T>, c: seq<T>)
    ensures (a + b) + c == a + (b + c)
  {
  }

  /** Without `createdCount > 0` nothing is looked up and nobody is emailed. */
  lemma BulkQuietUnlessCreated(eventId: Value, userIds: string, senderId: Value, replies: BulkReplies)
    requires !Created(replies.out0)
    ensures BulkCalls(eventId, userIds, senderId, replies) == [ProcCall("sp_BulkCreateInvitations", [eventId, Str(userIds), senderId])]
    ensures BulkEmails(userIds, replies) == []
  {
  }

  /** `bulkCreateInvitations` sends at most one email per invitation row:
      emails about invitation `id` are no more than the rows with that id. */
  lemma BulkEmailsPerInvitation(userIds: string, replies: BulkReplies, id: Value)
    ensures EmailsAbout(BulkEmails(userIds, replies), id) <= RowsWithId(replies.invitations, id)
  {
    if Created(replies.out0) && replies.event.Some? && replies.sender.Some? {
      var ids := ParseIds(userIds);
      PendingForRowsWithId(replies.invitations, v => RequestedBy(ids, v), id);
      EmailsToUsersPerInvitation(BulkChosen(userIds, replies), replies.users, replies.event.value.title,
                                 replies.sender.value.fullName, id);
    }
  }

  /** An email is sent exactly for each PENDING invitation of the event whose
      user id is among the requested ids and whose user has a truthy address,
      provided the count was positive and the event and the sender exist. */
  lemma BulkEmailsExact(userIds: string, replies: BulkReplies, e: Email)
    ensures e in BulkEmails(userIds, replies) <==>
              Created(replies.out0) && replies.event.Some? && replies.sender.Some? &&
              exists inv :: inv in replies.invitations && inv.status == Str("PENDING")
                && RequestedBy(ParseIds(userIds), inv.userId)
                && replies.users(inv.userId).Some? && Truthy(replies.users(inv.userId).value.email)
                && e == InvitationEmail(replies.users(inv.userId).value.email, replies.event.value.title,
                                        replies.sender.value.fullName, inv.id)
    ensures |BulkEmails(userIds, replies)| <= |replies.invitations|
  {
    if Created(replies.out0) && replies.event.Some? && replies.sender.Some? {
      var chosen := BulkChosen(userIds, replies);
      var title, name := replies.event.value.title, replies.sender.value.fullName;
      EmailsToUsersExact(chosen, replies.users, title, name, e);
      if e in BulkEmails(userIds, replies) {
        var inv :| inv in chosen && UserInvitationEmail(inv, replies.users, title, name) == Some(e);
        assert inv in replies.invitations;
      }
      if exists inv :: inv in replies.invitations && inv.status == Str("PENDING")
                && RequestedBy(ParseIds(userIds), inv.userId)
                && replies.users(inv.userId).Some? && Truthy(replies.users(inv.userId).value.email)
                && e == InvitationEmail(replies.users(inv.userId).value.email, title, name, inv.id) {
        var inv :| inv in replies.invitations && inv.status == Str("PENDING")
                && RequestedBy(ParseIds(userIds), inv.userId)
                && replies.users(inv.userId).Some? && Truthy(replies.users(inv.userId).value.email)
                && e == InvitationEmail(replies.users(inv.userId).value.email, title, name, inv.id);
        assert inv in chosen;
        assert UserInvitationEmail(inv, replies.users, title, name) == Some(e);
      }
    }
  }

  lemma FiveAndSix()
    ensures ParseIds("5,6") == [Some(5), Some(6)]
  {
    SplitFiveSix();
    NumberOfDigit(5);
    NumberOfDigit(6);
    TrimIdentity("5");
    TrimIdentity("6");
    NumbersOfPair("5", "6");
  }

  lemma SplitFiveSix()
    ensures Split("5,6", ',') == ["5", "6"]
  {
    assert Split("", ',') == [""];
    SplitExtend("", ',', '5');
    assert "" + ['5'] == "5";
    assert Split("5", ',') == ["5"];
    SplitOpen("5", ',');
    assert "5" + [','] == "5,";
    assert Split("5,", ',') == ["5", ""];
    SplitExtend("5,", ',', '6');
    assert "5," + ['6'] == "5,6";
    assert ["5", ""][..1] == ["5"] && "" + ['6'] == "6";
  }

  lemma BothChosen(replies: BulkReplies, a: InvitationRow, b: InvitationRow)
    requires replies.invitations == [a, b]
    requires a.userId == Num(5) && b.userId == Num(6) && a.status == Str("PENDING") && b.status == Str("PENDING")
    ensures BulkChosen("5,6", replies) == [a, b]
  {
    var ids := ParseIds("5,6");
    FiveAndSix();
    var requested := v => RequestedBy(ids, v);
    assert requested(a.userId) && requested(b.userId);
    PendingForPair(a, b, requested);
  }

  lemma PendingForPair(a: InvitationRow, b: InvitationRow, requested: Value -> bool)
    requires requested(a.userId) && requested(b.userId)
    requires a.status == Str("PENDING") && b.status == Str("PENDING")
    ensures PendingFor([a, b], requested) == [a, b]
  {
    assert [a, b][..1] == [a];
    assert [a][..0] == [];
    assert PendingFor([a], requested) == [a];
  }

  lemma BothEmailed(a: InvitationRow, b: InvitationRow, users: Value -> Option<UserRow>, title: Value, name: Value)
    requires users(a.userId).Some? && Truthy(users(a.userId).value.email)
    requires users(b.userId).Some? && Truthy(users(b.userId).value.email)
    ensures EmailsToUsers([a, b], users, title, name)
            == [InvitationEmail(users(a.userId).value.email, title, name, a.id),
                InvitationEmail(users(b.userId).value.email, title, name, b.id)]
  {
    assert [a, b][..1] == [a];
    assert [a][..0] == [];
  }

  /** The selection does not tell new invitations from old ones: when the
      procedure reports one created invitation for the ids "5,6" while an
      earlier invitation of the other user is still PENDING, both users are
      emailed, each about their own invitation. */
  lemma BulkRenotifiesPending(replies: BulkReplies, a: InvitationRow, b: InvitationRow)
    requires replies.out0 == Ok(Num(1)) && replies.event.Some? && replies.sender.Some?
    requires replies.invitations == [a, b]
    requires a.userId == Num(5) && b.userId == Num(6) && a.status == Str("PENDING") && b.status == Str("PENDING")
    requires replies.users(a.userId).Some? && Truthy(replies.users(a.userId).value.email)
    requires replies.users(b.userId).Some? && Truthy(replies.users(b.userId).value.email)
    ensures var title, name := replies.event.value.title, replies.sender.value.fullName;
            BulkEmails("5,6", replies)
            == [InvitationEmail(replies.users(a.userId).value.email, title, name, a.id),
                InvitationEmail(replies.users(b.userId).value.email, title, name, b.id)]
  {
    BothChosen(replies, a, b);
    BothEmailed(a, b, replies.users, replies.event.value.title, replies.sender.value.fullName);
  }

  // ---------------------------------------------------------------------------
  // inviteList (index.ts:856-878)

  /** The store's answers during one `inviteList`. */
  datatype ListReplies = ListReplies(
    out0: Result<Value>,                  // sp_InviteListMembers: the created count
    event: Option<EventRow>,              // sp_GetEventById
    sender: Option<UserRow>,              // sp_GetUserById(senderId)
    members: seq<MemberRow>,              // sp_GetDistributionListMembers
    invitations: seq<InvitationRow>)      // sp_GetInvitationsByEvent

  /** `memberIds.includes(v)` */
  predicate IsMemberId(members: seq<MemberRow>, v: Value) {
    exists m :: m in members && m.id == v
  }

  /** The invitations `inviteList` announces. */
  function ListChosen(replies: ListReplies): seq<InvitationRow> {
    PendingFor(replies.invitations, v => IsMemberId(replies.members, v))
  }

  function ListCalls(eventId: Value, listId: Value, senderId: Value, replies: ListReplies): seq<ProcCall> {
    [ProcCall("sp_InviteListMembers", [eventId, listId, senderId])]
    + if Created(replies.out0) then
        [ProcCall("sp_GetEventById", [eventId]), ProcCall("sp_GetUserById", [senderId])]
        + if replies.event.Some? && replies.sender.Some?
          then [ProcCall("sp_GetDistributionListMembers", [listId]), ProcCall("sp_GetInvitationsByEvent", [eventId])]
          else []
      else []
  }

  function ListEmails(replies: ListReplies): seq<Email> {
    if Created(replies.out0) && replies.event.Some? && replies.sender.Some?
    then EmailsToMembers(ListChosen(replies), replies.members, replies.event.value.title,
                         replies.sender.value.fullName)
    else []
  }

  /** `inviteList`: returns the procedure's count unchanged. */
  method InviteList(j: Journal, eventId: Value, listId: Value, senderId: Value, replies: ListReplies)
    returns (r: Result<Value>)
    modifies j
    ensures j.calls == old(j.calls) + ListCalls(eventId, listId, senderId, replies)
    ensures j.outbox == old(j.outbox) + ListEmails(replies)
    ensures r == replies.out0
  {
    j.Call("sp_InviteListMembers", [eventId, listId, senderId]);
    if replies.out0.Err? {
      return Err(replies.out0.message);
    }
    var createdCount := replies.out0.value;
    if GreaterThanZero(createdCount) {
      ghost var invite := ProcCall("sp_InviteListMembers", [eventId, listId, senderId]);
      ghost var lookups := [ProcCall("sp_GetEventById", [eventId]), ProcCall("sp_GetUserById", [senderId])];
      j.Call("sp_GetEventById", [eventId]);
      j.Call("sp_GetUserById", [senderId]);
      assert j.calls == old(j.calls) + ([invite] + lookups);
      if replies.event.Some? && replies.sender.Some? {
        ghost var fetches := [ProcCall("sp_GetDistributionListMembers", [listId]), ProcCall("sp_GetInvitationsByEvent", [eventId])];
        j.Call("sp_GetDistributionListMembers", [listId]);
        j.Call("sp_GetInvitationsByEvent", [eventId]);
        assert ListCalls(eventId, listId, senderId, replies) == [invite] + (lookups + fetches);
        assert j.calls == old(j.calls) + ([invite] + (lookups + fetches));
        var newInvitations := ListChosen(replies);
        AnnounceToMembers(j, newInvitations, replies.members, replies.event.value.title, replies.sender.value.fullName);
      }
    }
    return Ok(createdCount);
  }

  /** Without `createdCount > 0` nothing is looked up and nobody is emailed. */
  lemma ListQuietUnlessCreated(eventId: Value, listId: Value, senderId: Value, replies: ListReplies)
    requires !Created(replies.out0)
    ensures ListCalls(eventId, listId, senderId, replies) == [ProcCall("sp_InviteListMembers", [eventId, listId, senderId])]
    ensures ListEmails(replies) == []
  {
  }

  /** The invitation `inv` is announced to the `k`-th list member. */
  predicate ListAnnounces(replies: ListReplies, inv: InvitationRow, k: int, e: Email)
    requires replies.event.Some? && replies.sender.Some?
  {
    inv in replies.invitations && inv.status == Str("PENDING")
    && FirstWithId(replies.members, k, inv.userId) && Truthy(replies.members[k].email)
    && e == InvitationEmail(replies.members[k].email, replies.event.value.title,
                            replies.sender.value.fullName, inv.id)
  }

  lemma ListEmailsSound(replies: ListReplies, e: Email)
    requires e in ListEmails(replies)
    ensures Created(replies.out0) && replies.event.Some? && replies.sender.Some?
    ensures exists inv, k :: ListAnnounces(replies, inv, k, e)
  {
    var chosen := ListChosen(replies);
    var title, name := replies.event.value.title, replies.sender.value.fullName;
    EmailsToMembersExact(chosen, replies.members, title, name, e);
    var inv :| inv in chosen && MemberInvitationEmail(inv, replies.members, title, name) == Some(e);
    var m := FindMember(replies.members, inv.userId);
    var k :| FirstWithId(replies.members, k, inv.userId) && replies.members[k] == m.value;
    assert ListAnnounces(replies, inv, k, e);
  }

  lemma ListEmailsComplete(replies: ListReplies, inv: InvitationRow, k: int, e: Email)
    requires Created(replies.out0) && replies.event.Some? && replies.sender.Some?
    requires ListAnnounces(replies, inv, k, e)
    ensures e in ListEmails(replies)
  {
    var members := replies.members;
    var title, name := replies.event.value.title, replies.sender.value.fullName;
    assert members[k] in members;
    assert IsMemberId(members, inv.userId);
    assert inv in ListChosen(replies);
    var m := FindMember(members, inv.userId);
    var k' :| FirstWithId(members, k', inv.userId) && members[k'] == m.value;
    FirstWithIdUnique(members, k, k', inv.userId);
    assert MemberInvitationEmail(inv, members, title, name) == Some(e);
    EmailsToMembersExact(ListChosen(replies), members, title, name, e);
  }

  /** An email is sent exactly for each PENDING invitation of the event whose
      user id belongs to a list member, to the address of the FIRST member with
      that id when it is truthy, provided the count was positive and the event
      and the sender exist. */
  lemma ListEmailsExact(replies: ListReplies, e: Email)
    ensures e in ListEmails(replies) <==>
              Created(replies.out0) && replies.event.Some? && replies.sender.Some? &&
              exists inv, k :: ListAnnounces(replies, inv, k, e)
    ensures |ListEmails(replies)| <= |replies.invitations|
  {
    if e in ListEmails(replies) {
      ListEmailsSound(replies, e);
    }
    if Created(replies.out0) && replies.event.Some? && replies.sender.Some? &&
       exists inv, k :: ListAnnounces(replies, inv, k, e) {
      var inv, k :| ListAnnounces(replies, inv, k, e);
      ListEmailsComplete(replies, inv, k, e);
    }
  }

  /** `inviteList` sends at most one email per invitation row. */
  lemma ListEmailsPerInvitation(replies: ListReplies, id: Value)
    ensures EmailsAbout(ListEmails(replies), id) <= RowsWithId(replies.invitations, id)
  {
    if Created(replies.out0) && replies.event.Some? && replies.sender.Some? {
      PendingForRowsWithId(replies.invitations, v => IsMemberId(replies.members, v), id);
      EmailsToMembersPerInvitation(ListChosen(replies), replies.members, replies.event.value.title,
                                   replies.sender.value.fullName, id);
    }
  }
}
