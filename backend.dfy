/** What the services see of the world around them: the rows the stored
    procedures return, the emails `EmailService` builds, and a journal of
    what a service did — which procedures it called, in order, and which
    emails it handed to `EmailService`, in order.

    `EmailService.sendEmail` is a stub that always reports success
    (index.ts:180-186), so a send is modelled as appending to the outbox.
    The message bodies are not modelled; each email keeps the data that fills
    its template. */
module Backend {
  import opened Js

  /** `EmailType` (index.ts:24-29). */
  datatype EmailType = Invitation | RoleChange | EventUpdate | Reminder

  /** The emails the modelled services send (index.ts:187-221). */
  datatype Email =
    | InvitationEmail(to: Value, eventTitle: Value, senderName: Value, invitationId: Value)
    | EventUpdateEmail(to: Value, eventTitle: Value, eventId: Value)
    | EventCancellationEmail(to: Value, eventTitle: Value)
  {
    function Subject(): string {
      match this
      case InvitationEmail(_, _, _, _) => "New Invitation"
      case EventUpdateEmail(_, _, _) => "Event Updated"
      case EventCancellationEmail(_, _) => "Event Cancelled"
    }

    function Type(): EmailType {
      match this
      case InvitationEmail(_, _, _, _) => Invitation
      case _ => EventUpdate
    }
  }

  /** The columns of the rows the services read. */
  datatype EventRow = EventRow(title: Value, isPublished: Value)
  datatype UserRow = UserRow(email: Value, fullName: Value)
  datatype AttendanceRow = AttendanceRow(email: Value)
  datatype InvitationRow = InvitationRow(id: Value, userId: Value, status: Value, email: Value)
  datatype MemberRow = MemberRow(id: Value, email: Value)

  /** One stored-procedure call: its name and its positional IN arguments. */
  datatype ProcCall = ProcCall(procedure: string, args: seq<Value>)

  /** The addresses of a sequence of emails, in order. */
  function Addressees(emails: seq<Email>): (r: seq<Value>)
    ensures |r| == |emails|
    ensures forall k :: 0 <= k < |emails| ==> r[k] == emails[k].to
  {
    if emails == [] then [] else Addressees(emails[..|emails| - 1]) + [emails[|emails| - 1].to]
  }

  /** The number of times `x` occurs in `s`. */
  function Occurrences<T(==)>(s: seq<T>, x: T): nat {
    if s == [] then 0 else Occurrences(s[..|s| - 1], x) + (if s[|s| - 1] == x then 1 else 0)
  }

  predicate Distinct<T(==)>(s: seq<T>) {
    forall i, j :: 0 <= i < j < |s| ==> s[i] != s[j]
  }

  /** In a sequence without repetitions every element occurs exactly once. */
  lemma {:induction false} DistinctOccursOnce<T>(s: seq<T>, x: T)
    requires Distinct(s)
    ensures Occurrences(s, x) == if x in s then 1 else 0
  {
    if s != [] {
      var p := s[..|s| - 1];
      assert Distinct(p);
      DistinctOccursOnce(p, x);
      assert s == p + [s[|s| - 1]];
      if s[|s| - 1] == x {
        assert x !in p;
      }
    }
  }

  /** The journal of one service: the procedures it called and the emails it sent. */
  class Journal {
    var calls: seq<ProcCall>
    var outbox: seq<Email>

    constructor ()
      ensures calls == [] && outbox == []
    {
      calls, outbox := [], [];
    }

    /** `db.callProcedure(procedure, args)` or `db.executeWithOutParams(procedure, args, n)`. */
    method Call(procedure: string, args: seq<Value>)
      modifies this
      ensures calls == old(calls) + [ProcCall(procedure, args)]
      ensures outbox == old(outbox)
    {
      calls := calls + [ProcCall(procedure, args)];
    }

    /** `emailService.send…Email(…)` */
    method Send(e: Email)
      modifies this
      ensures outbox == old(outbox) + [e]
      ensures calls == old(calls)
    {
      outbox := outbox + [e];
    }

    /** `Promise.all(emails.map(send))`, with the sends taken one after another. */
    method SendAll(emails: seq<Email>)
      modifies this
      ensures outbox == old(outbox) + emails
      ensures calls == old(calls)
    {
      for k := 0 to |emails|
        invariant outbox == old(outbox) + emails[..k]
        invariant calls == old(calls)
      {
        Send(emails[k]);
        assert emails[..k + 1] == emails[..k] + [emails[k]];
      }
      assert emails[..|emails|] == emails;
    }
  }
}
