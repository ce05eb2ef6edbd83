/** `EventService` (index.ts:476-642): the arguments `createEvent` and
    `updateEvent` pass to their stored procedures, who is told about an
    update, a cancellation or a deletion, and when.

    Whether a procedure succeeds is decided by the database; its answer
    (`out0`, or the error it raises) is a parameter of each operation, and so
    are the rows the lookups return. */
module Events {
  import opened Js
  import opened Backend

  // ---------------------------------------------------------------------------
  // Argument marshalling (index.ts:506-557)

  /** `v || null` */
  function OrNull(v: Value): Value {
    Or(v, Null)
  }

  /** `v === undefined ? null : v` */
  function UndefinedToNull(v: Value): Value {
    if v == Undefined then Null else v
  }

  /** `v || null` keeps exactly the truthy values and sends everything else,
      0 and "" included, as NULL. */
  lemma OrNullKeepsTruthy(v: Value)
    ensures Truthy(v) ==> OrNull(v) == v
    ensures !Truthy(v) ==> OrNull(v) == Null
    ensures OrNull(Num(0)) == Null && OrNull(Str("")) == Null && OrNull(Bool(false)) == Null
  {
  }

  /** The body of `createEvent`; absent optional fields are `Undefined`. */
  datatype NewEvent = NewEvent(
    title: Value, description: Value, locationId: Value, startTime: Value, endTime: Value,
    isPublished: Value, capacity: Value, requiresCheckout: Value, checkoutToleranceMinutes: Value,
    organizerId: Value, isRecurring: Value, recurrencePattern: Value)

  /** The body of `updateEvent`; absent fields are `Undefined`. */
  datatype EventChanges = EventChanges(
    title: Value, description: Value, locationId: Value, startTime: Value, endTime: Value,
    isPublished: Value, capacity: Value, requiresCheckout: Value, checkoutToleranceMinutes: Value)

  /** The IN arguments of `sp_CreateEvent`, in its parameter order: the
      required fields as given; `isPublished`, `requiresCheckout` and
      `isRecurring` with only `undefined` turned into NULL (so `false` is sent
      as `false`); `capacity`, `checkoutToleranceMinutes` and
      `recurrencePattern` with every falsy value, 0 included, sent as NULL. */
  function CreateEventArgs(d: NewEvent): (args: seq<Value>)
    ensures |args| == 12
    ensures args[0] == d.title && args[1] == d.description && args[2] == d.locationId
    ensures args[3] == d.startTime && args[4] == d.endTime && args[9] == d.organizerId
    ensures (args[5] == Null <==> d.isPublished in {Undefined, Null})
         && (args[5] != Null ==> args[5] == d.isPublished)
    ensures (args[7] == Null <==> d.requiresCheckout in {Undefined, Null})
         && (args[7] != Null ==> args[7] == d.requiresCheckout)
    ensures (args[10] == Null <==> d.isRecurring in {Undefined, Null})
         && (args[10] != Null ==> args[10] == d.isRecurring)
    ensures (args[6] == Null <==> !Truthy(d.capacity)) && (args[6] != Null ==> args[6] == d.capacity)
    ensures (args[8] == Null <==> !Truthy(d.checkoutToleranceMinutes))
         && (args[8] != Null ==> args[8] == d.checkoutToleranceMinutes)
    ensures (args[11] == Null <==> !Truthy(d.recurrencePattern))
         && (args[11] != Null ==> args[11] == d.recurrencePattern)
  {
    [d.title, d.description, d.locationId, d.startTime, d.endTime,
     UndefinedToNull(d.isPublished), OrNull(d.capacity), UndefinedToNull(d.requiresCheckout),
     OrNull(d.checkoutToleranceMinutes), d.organizerId, UndefinedToNull(d.isRecurring),
     OrNull(d.recurrencePattern)]
  }

  /** The IN arguments of `sp_UpdateEvent`, in its parameter order: the event
      id first and the organizer id last; every other field with `|| null`,
      except the two flags, where only `undefined` becomes NULL. */
  function UpdateEventArgs(id: Value, d: EventChanges, organizerId: Value): (args: seq<Value>)
    ensures |args| == 11
    ensures args[0] == id && args[10] == organizerId
    ensures forall k :: k in {1, 2, 3, 4, 5, 7, 9} ==>
              var v := [Undefined, d.title, d.description, d.locationId, d.startTime, d.endTime,
                        Undefined, d.capacity, Undefined, d.checkoutToleranceMinutes][k];
              (args[k] == Null <==> !Truthy(v)) && (args[k] != Null ==> args[k] == v)
    ensures (args[6] == Null <==> d.isPublished in {Undefined, Null})
         && (args[6] != Null ==> args[6] == d.isPublished)
    ensures (args[8] == Null <==> d.requiresCheckout in {Undefined, Null})
         && (args[8] != Null ==> args[8] == d.requiresCheckout)
  {
    [id, OrNull(d.title), OrNull(d.description), OrNull(d.locationId), OrNull(d.startTime),
     OrNull(d.endTime), UndefinedToNull(d.isPublished), OrNull(d.capacity),
     UndefinedToNull(d.requiresCheckout), OrNull(d.checkoutToleranceMinutes), organizerId]
  }

  /** A capacity or check-out tolerance of 0 reaches the procedure as NULL,
      while a `false` flag reaches it as `false`. */
  lemma ZeroSentAsNull(d: NewEvent, id: Value, c: EventChanges, organizerId: Value)
    requires d.capacity == Num(0) && d.checkoutToleranceMinutes == Num(0)
    requires c.capacity == Num(0) && c.checkoutToleranceMinutes == Num(0)
    requires d.isPublished == Bool(false) && c.requiresCheckout == Bool(false)
    ensures CreateEventArgs(d)[6] == Null && CreateEventArgs(d)[8] == Null
    ensures UpdateEventArgs(id, c, organizerId)[7] == Null && UpdateEventArgs(id, c, organizerId)[9] == Null
    ensures CreateEventArgs(d)[5] == Bool(false) && UpdateEventArgs(id, c, organizerId)[8] == Bool(false)
  {
  }

  // ---------------------------------------------------------------------------
  // Recipients (index.ts:566-591)

  /** `results.map(a => a.email).filter(Boolean)` */
  function EmailsOfAttendances(rows: seq<AttendanceRow>): (r: seq<Value>)
    ensures forall x :: x in r <==> Truthy(x) && exists k :: 0 <= k < |rows| && rows[k].email == x
  {
    if rows == [] then []
    else
      var last := rows[|rows| - 1];
      var init := rows[..|rows| - 1];
      assert forall k :: 0 <= k < |init| ==> init[k] == rows[k];
      EmailsOfAttendances(init) + (if Truthy(last.email) then [last.email] else [])
  }

  /** `results.filter(i => i.status === 'ACCEPTED').map(i => i.email).filter(Boolean)` */
  function EmailsOfAccepted(rows: seq<InvitationRow>): (r: seq<Value>)
    ensures forall x :: x in r <==>
              Truthy(x) && exists k :: 0 <= k < |rows| && rows[k].status == Str("ACCEPTED") && rows[k].email == x
  {
    if rows == [] then []
    else
      var last := rows[|rows| - 1];
      var init := rows[..|rows| - 1];
      assert forall k :: 0 <= k < |init| ==> init[k] == rows[k];
      EmailsOfAccepted(init)
        + (if last.status == Str("ACCEPTED") && Truthy(last.email) then [last.email] else [])
  }

  /** The filters keep the order of the rows: the emails of two runs of rows
      are the emails of the first run followed by those of the second. */
  lemma {:induction false} EmailsOfAttendancesAppend(a: seq<AttendanceRow>, b: seq<AttendanceRow>)
    ensures EmailsOfAttendances(a + b) == EmailsOfAttendances(a) + EmailsOfAttendances(b)
    decreases |b|
  {
    if b == [] {
      assert a + b == a;
    } else {
      var init := b[..|b| - 1];
      assert (a + b)[..|a + b| - 1] == a + init;
      assert (a + b)[|a + b| - 1] == b[|b| - 1];
      EmailsOfAttendancesAppend(a, init);
    }
  }

  lemma {:induction false} EmailsOfAcceptedAppend(a: seq<InvitationRow>, b: seq<InvitationRow>)
    ensures EmailsOfAccepted(a + b) == EmailsOfAccepted(a) + EmailsOfAccepted(b)
    decreases |b|
  {
    if b == [] {
      assert a + b == a;
    } else {
      var init := b[..|b| - 1];
      assert (a + b)[..|a + b| - 1] == a + init;
      assert (a + b)[|a + b| - 1] == b[|b| - 1];
      EmailsOfAcceptedAppend(a, init);
    }
  }

  /** `getAttendanceEmails`: a lookup that throws contributes nothing. */
  function AttendanceEmails(lookup: Result<seq<AttendanceRow>>): seq<Value> {
    if lookup.Err? then [] else EmailsOfAttendances(lookup.value)
  }

  /** `getAcceptedInvitationEmails`: a lookup that throws contributes nothing. */
  function AcceptedInvitationEmails(lookup: Result<seq<InvitationRow>>): seq<Value> {
    if lookup.Err? then [] else EmailsOfAccepted(lookup.value)
  }

  /** `[...new Set(s)]`: each element once, where it first occurs. */
  function Dedup<T(==,!new)>(s: seq<T>): (r: seq<T>)
    ensures forall x :: x in r <==> x in s
    ensures Distinct(r)
  {
    if s == [] then []
    else
      var d := Dedup(s[..|s| - 1]);
      if s[|s| - 1] in d then d else d + [s[|s| - 1]]
  }

  /** The position of the first occurrence of `x` in `s`. */
  function FirstIndex<T(==)>(s: seq<T>, x: T): (k: nat)
    requires x in s
    ensures k < |s| && s[k] == x
    ensures forall j :: 0 <= j < k ==> s[j] != x
  {
    if s[0] == x then 0 else 1 + FirstIndex(s[1..], x)
  }

  lemma FirstIndexSnoc<T>(p: seq<T>, y: T, x: T)
    requires x in p + [y]
    ensures x in p ==> FirstIndex(p + [y], x) == FirstIndex(p, x)
    ensures x !in p ==> FirstIndex(p + [y], x) == |p|
  {
    var s := p + [y];
    var k := FirstIndex(s, x);
    if x in p {
      var k' := FirstIndex(p, x);
      assert s[k'] == x;
      assert k <= k';
      assert p[k] == x || k == |p|;
    }
  }

  /** The elements of `r`, all taken from `s`, come in the order of their
      first occurrences in `s`. */
  predicate InFirstOccurrenceOrder<T(==)>(s: seq<T>, r: seq<T>) {
    forall i, j :: 0 <= i < j < |r| && r[i] in s && r[j] in s ==> FirstIndex(s, r[i]) < FirstIndex(s, r[j])
  }

  /** `Dedup` keeps the order of first occurrences. */
  lemma {:induction false} DedupOrder<T(!new)>(s: seq<T>)
    ensures InFirstOccurrenceOrder(s, Dedup(s))
  {
    if s != [] {
      var p, y := s[..|s| - 1], s[|s| - 1];
      assert s == p + [y];
      DedupOrder(p);
      DedupOrderStep(p, y);
    }
  }

  lemma DedupOrderStep<T(!new)>(p: seq<T>, y: T)
    requires InFirstOccurrenceOrder(p, Dedup(p))
    ensures InFirstOccurrenceOrder(p + [y], Dedup(p + [y]))
  {
    var s := p + [y];
    assert s[..|s| - 1] == p;
    var d := Dedup(p);
    var r := Dedup(s);
    forall x | x in d ensures FirstIndex(s, x) == FirstIndex(p, x) {
      FirstIndexSnoc(p, y, x);
    }
    if y in d {
      assert r == d;
    } else {
      assert r == d + [y];
      FirstIndexSnoc(p, y, y);
      forall i, j | 0 <= i < j < |r| ensures FirstIndex(s, r[i]) < FirstIndex(s, r[j]) {
        assert r[i] == d[i] && d[i] in d && d[i] in p;
        assert FirstIndex(s, r[i]) == FirstIndex(p, d[i]) < |p|;
        if j < |d| {
          assert r[j] == d[j] && d[j] in d && d[j] in p;
          assert FirstIndex(s, r[j]) == FirstIndex(p, d[j]);
        } else {
          assert r[j] == y && FirstIndex(s, y) == |p|;
        }
      }
    }
  }

  /** The people told about a change to an event: attendance emails followed by
      ACCEPTED-invitation emails, without repetitions, in order of first occurrence. */
  function Recipients(attendances: Result<seq<AttendanceRow>>, invitations: Result<seq<InvitationRow>>): (r: seq<Value>)
    ensures forall x :: x in r <==> x in AttendanceEmails(attendances) || x in AcceptedInvitationEmails(invitations)
    ensures Distinct(r)
    ensures attendances.Err? && invitations.Err? ==> r == []
  {
    Dedup(AttendanceEmails(attendances) + AcceptedInvitationEmails(invitations))
  }

  /** An address is a recipient exactly when it is truthy and belongs to an
      attendance row, or to an ACCEPTED invitation, of a lookup that succeeded;
      no address appears twice, and the order is that of first occurrence. */
  lemma RecipientsExact(attendances: Result<seq<AttendanceRow>>, invitations: Result<seq<InvitationRow>>, x: Value)
    ensures x in Recipients(attendances, invitations) <==>
              Truthy(x) &&
              ((attendances.Ok? && exists k :: 0 <= k < |attendances.value| && attendances.value[k].email == x)
               || (invitations.Ok? &&
                     exists k :: 0 <= k < |invitations.value| &&
                       invitations.value[k].status == Str("ACCEPTED") && invitations.value[k].email == x))
    ensures Distinct(Recipients(attendances, invitations))
    ensures InFirstOccurrenceOrder(AttendanceEmails(attendances) + AcceptedInvitationEmails(invitations),
                                   Recipients(attendances, invitations))
  {
    var all := AttendanceEmails(attendances) + AcceptedInvitationEmails(invitations);
    assert Recipients(attendances, invitations) == Dedup(all);
    DedupOrder(all);
  }

  // ---------------------------------------------------------------------------
  // Cancel and delete (index.ts:592-606, 627-641)

  /** The store's answers during one `cancelEvent` or `deleteEvent`. */
  datatype RemovalReplies = RemovalReplies(
    event: Option<EventRow>,                      // sp_GetEventById, None for no row
    attendances: Result<seq<AttendanceRow>>,      // sp_GetAttendancesByEvent
    invitations: Result<seq<InvitationRow>>,      // sp_GetInvitationsByEvent
    out0: Result<Value>)                          // the cancel / delete procedure

  /** One cancellation email per address, in order. */
  function CancellationEmails(recipients: seq<Value>, title: Value): (r: seq<Email>)
    ensures Addressees(r) == recipients
    ensures forall k :: 0 <= k < |r| ==> r[k] == EventCancellationEmail(recipients[k], title)
  {
    if recipients == [] then []
    else
      var n := |recipients|;
      var init := CancellationEmails(recipients[..n - 1], title);
      assert Addressees(init + [EventCancellationEmail(recipients[n - 1], title)])[..n - 1] == Addressees(init);
      init + [EventCancellationEmail(recipients[n - 1], title)]
  }

  /** Every cancellation email is sent as `sendEventCancellationEmail` sends it:
      subject 'Event Cancelled', type EVENT_UPDATE, to a recipient. */
  lemma CancellationEmailsKind(recipients: seq<Value>, title: Value, e: Email)
    requires e in CancellationEmails(recipients, title)
    ensures e.Subject() == "Event Cancelled" && e.Type() == EventUpdate
    ensures e.to in recipients && e.eventTitle == title
  {
    var r := CancellationEmails(recipients, title);
    var k :| 0 <= k < |r| && r[k] == e;
    assert e == EventCancellationEmail(recipients[k], title);
  }

  /** The procedures a cancel or delete calls: the event lookup, and if the event
      exists, both recipient lookups BEFORE the procedure that changes it. */
  function RemovalCalls(procedure: string, id: Value, organizerId: Value, found: bool): seq<ProcCall> {
    [ProcCall("sp_GetEventById", [id])]
    + if found then
        [ProcCall("sp_GetAttendancesByEvent", [id]), ProcCall("sp_GetInvitationsByEvent", [id]),
         ProcCall(procedure, [id, organizerId])]
      else []
  }

  /** The emails a cancel or delete sends. */
  function RemovalEmails(replies: RemovalReplies): seq<Email> {
    var all := Recipients(replies.attendances, replies.invitations);
    if replies.event.Some? && replies.out0 == Ok(Num(1)) && |all| > 0
    then CancellationEmails(all, replies.event.value.title)
    else []
  }

  /** What a cancel or delete returns: it throws 'Event not found' without a row,
      rethrows the procedure's error, and otherwise reports `out0 === 1`. */
  function RemovalResult(replies: RemovalReplies): Result<bool> {
    if replies.event.None? then Err("Event not found")
    else if replies.out0.Err? then Err(replies.out0.message)
    else Ok(StrictEquals(replies.out0.value, Num(1)))
  }

  /** Each recipient gets exactly one cancellation email, and nobody else gets
      any; nothing is sent unless the event exists and the procedure answered
      `out0 === 1`. The `allEmails.length > 0` test changes nothing. */
  lemma RemovalNotifiesEachOnce(replies: RemovalReplies, x: Value)
    ensures replies.event.None? || replies.out0 != Ok(Num(1)) ==> RemovalEmails(replies) == []
    ensures replies.event.Some? && replies.out0 == Ok(Num(1)) ==>
              var all := Recipients(replies.attendances, replies.invitations);
              && RemovalEmails(replies) == CancellationEmails(all, replies.event.value.title)
              && Occurrences(Addressees(RemovalEmails(replies)), x) == (if x in all then 1 else 0)
  {
    var all := Recipients(replies.attendances, replies.invitations);
    DistinctOccursOnce(all, x);
    if replies.event.Some? && replies.out0 == Ok(Num(1)) && all == [] {
      assert CancellationEmails(all, replies.event.value.title) == [];
    }
  }

  /** `cancelEvent` and `deleteEvent` differ only in the procedure they call. */
  method RemoveEvent(j: Journal, procedure: string, id: Value, organizerId: Value, replies: RemovalReplies)
    returns (r: Result<bool>)
    modifies j
    ensures j.calls == old(j.calls) + RemovalCalls(procedure, id, organizerId, replies.event.Some?)
    ensures j.outbox == old(j.outbox) + RemovalEmails(replies)
    ensures r == RemovalResult(replies)
  {
    j.Call("sp_GetEventById", [id]);
    if replies.event.None? {
      return Err("Event not found");
    }
    var event := replies.event.value;
    j.Call("sp_GetAttendancesByEvent", [id]);
    j.Call("sp_GetInvitationsByEvent", [id]);
    var allEmails := Recipients(replies.attendances, replies.invitations);
    j.Call(procedure, [id, organizerId]);
    assert j.calls == old(j.calls) + RemovalCalls(procedure, id, organizerId, true);
    if replies.out0.Err? {
      return Err(replies.out0.message);
    }
    var out0 := replies.out0.value;
    if StrictEquals(out0, Num(1)) && |allEmails| > 0 {
      j.SendAll(CancellationEmails(allEmails, event.title));
    }
    return Ok(StrictEquals(out0, Num(1)));
  }

  /** `cancelEvent` (index.ts:627-641). */
  method CancelEvent(j: Journal, id: Value, organizerId: Value, replies: RemovalReplies)
    returns (r: Result<bool>)
    modifies j
    ensures j.calls == old(j.calls) + RemovalCalls("sp_CancelEvent", id, organizerId, replies.event.Some?)
    ensures j.outbox == old(j.outbox) + RemovalEmails(replies)
    ensures r == RemovalResult(replies)
  {
    r := RemoveEvent(j, "sp_CancelEvent", id, organizerId, replies);
  }

  /** `deleteEvent` (index.ts:592-606). */
  method DeleteEvent(j: Journal, id: Value, organizerId: Value, replies: RemovalReplies)
    returns (r: Result<bool>)
    modifies j
    ensures j.calls == old(j.calls) + RemovalCalls("sp_DeleteEvent", id, organizerId, replies.event.Some?)
    ensures j.outbox == old(j.outbox) + RemovalEmails(replies)
    ensures r == RemovalResult(replies)
  {
    r := RemoveEvent(j, "sp_DeleteEvent", id, organizerId, replies);
  }

  // ---------------------------------------------------------------------------
  // Create and update (index.ts:492-565)

  /** `createEvent`: calls `sp_CreateEvent` with the marshalled fields and
      returns `out0` (the new id), or rethrows the procedure's error. */
  method CreateEvent(j: Journal, d: NewEvent, out0: Result<Value>) returns (r: Result<Value>)
    modifies j
    ensures j.calls == old(j.calls) + [ProcCall("sp_CreateEvent", CreateEventArgs(d))]
    ensures j.outbox == old(j.outbox)
    ensures r == out0
  {
    j.Call("sp_CreateEvent", CreateEventArgs(d));
    r := out0;
  }

  /** The store's answers during one `updateEvent`. */
  datatype UpdateReplies = UpdateReplies(
    out0: Result<Value>,                          // sp_UpdateEvent
    event: Option<EventRow>,                      // sp_GetEventById after the update
    attendances: Result<seq<AttendanceRow>>,      // sp_GetAttendancesByEvent
    invitations: Result<seq<InvitationRow>>)      // sp_GetInvitationsByEvent

  /** Whether `updateEvent` emails anybody: only after `out0 === 1`, and only
      when the reloaded event is published. */
  predicate UpdateNotifies(replies: UpdateReplies) {
    replies.out0 == Ok(Num(1)) && replies.event.Some? && Truthy(replies.event.value.isPublished)
  }

  /** The procedures `updateEvent` calls: the update; after success the reload;
      for a published event the two recipient lookups, AFTER the update. */
  function UpdateCalls(id: Value, d: EventChanges, organizerId: Value, replies: UpdateReplies): seq<ProcCall> {
    [ProcCall("sp_UpdateEvent", UpdateEventArgs(id, d, organizerId))]
    + (if replies.out0 == Ok(Num(1)) then [ProcCall("sp_GetEventById", [id])] else [])
    + (if UpdateNotifies(replies)
       then [ProcCall("sp_GetAttendancesByEvent", [id]), ProcCall("sp_GetInvitationsByEvent", [id])]
       else [])
  }

  /** One update email per address, in order. */
  function UpdateEmails(recipients: seq<Value>, title: Value, id: Value): (r: seq<Email>)
    ensures Addressees(r) == recipients
    ensures forall k :: 0 <= k < |r| ==> r[k] == EventUpdateEmail(recipients[k], title, id)
  {
    if recipients == [] then []
    else
      var n := |recipients|;
      var init := UpdateEmails(recipients[..n - 1], title, id);
      assert Addressees(init + [EventUpdateEmail(recipients[n - 1], title, id)])[..n - 1] == Addressees(init);
      init + [EventUpdateEmail(recipients[n - 1], title, id)]
  }

  /** `updateEvent` (index.ts:526-565) with `sendEventUpdateEmails` (566-572). */
  method UpdateEvent(j: Journal, id: Value, d: EventChanges, organizerId: Value, replies: UpdateReplies)
    returns (r: Result<bool>)
    modifies j
    ensures j.calls == old(j.calls) + UpdateCalls(id, d, organizerId, replies)
    ensures UpdateNotifies(replies) ==>
              j.outbox == old(j.outbox)
                + UpdateEmails(Recipients(replies.attendances, replies.invitations), replies.event.value.title, id)
    ensures !UpdateNotifies(replies) ==> j.outbox == old(j.outbox)
    ensures r == if replies.out0.Err? then Err(replies.out0.message) else Ok(StrictEquals(replies.out0.value, Num(1)))
  {
    ghost var update := [ProcCall("sp_UpdateEvent", UpdateEventArgs(id, d, organizerId))];
    ghost var reload := [ProcCall("sp_GetEventById", [id])];
    ghost var lookups := [ProcCall("sp_GetAttendancesByEvent", [id]), ProcCall("sp_GetInvitationsByEvent", [id])];
    j.Call("sp_UpdateEvent", UpdateEventArgs(id, d, organizerId));
    if replies.out0.Err? {
      assert UpdateCalls(id, d, organizerId, replies) == update + [] + [];
      return Err(replies.out0.message);
    }
    var out0 := replies.out0.value;
    if StrictEquals(out0, Num(1)) {
      j.Call("sp_GetEventById", [id]);
      if replies.event.Some? && Truthy(replies.event.value.isPublished) {
        var event := replies.event.value;
        j.Call("sp_GetAttendancesByEvent", [id]);
        j.Call("sp_GetInvitationsByEvent", [id]);
        assert UpdateCalls(id, d, organizerId, replies) == update + reload + lookups;
        assert j.calls == old(j.calls) + (update + reload + lookups);
        j.SendAll(UpdateEmails(Recipients(replies.attendances, replies.invitations), event.title, id));
      } else {
        assert UpdateCalls(id, d, organizerId, replies) == update + reload + [];
      }
    } else {
      assert UpdateCalls(id, d, organizerId, replies) == update + [] + [];
    }
    return Ok(StrictEquals(out0, Num(1)));
  }

  /** An update tells exactly the recipients of the event, each once, and only
      when it succeeded on a published event. */
  lemma UpdateNotifiesEachOnce(replies: UpdateReplies, id: Value, x: Value)
    requires UpdateNotifies(replies)
    ensures var all := Recipients(replies.attendances, replies.invitations);
      Occurrences(Addressees(UpdateEmails(all, replies.event.value.title, id)), x) == (if x in all then 1 else 0)
  {
    DistinctOccursOnce(Recipients(replies.attendances, replies.invitations), x);
  }
}
