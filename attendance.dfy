/** `AttendanceService.processQRToken` (index.ts:722-741) and the two store
    calls it dispatches to (index.ts:660-667), with the QR token check
    `SecurityUtils.verifyQRToken` (index.ts:155-168) as a parameter: the
    outcome of verifying the scanned token. */
module Attendance {
  import opened Js
  import opened Backend

  /** The payload a QR token carries (index.ts:689-695, 146-149): the ids, the
      kind of scan (`type`), the names shown to people, and the time of issue. */
  datatype QrPayload = QrPayload(eventId: Value, userId: Value, kind: Value,
                                 eventTitle: Value, userName: Value, timestamp: int)

  /** What `processQRToken` did: the store procedure it called, if any, and the
      `{ success, message }` it returned. */
  datatype ScanReport = ScanReport(call: Option<ProcCall>, success: bool, message: string)

  /** The procedure a scan of `kind` records, if `kind` is one of the two the
      service knows. */
  function RecordingProcedure(kind: Value): Option<string> {
    if kind == Str("checkin") then Some("sp_RecordCheckin")
    else if kind == Str("checkout") then Some("sp_RecordCheckout")
    else None
  }

  /** `processQRToken(token, scannedBy)`.
      `verified` is the outcome of `verifyQRToken(token)`: `Err` when it throws,
      `Ok(None)` when it returns a falsy value, or an object without the fields
      read here. `reply` is the outcome of the recording procedure's `out0`,
      used only when that procedure is called. The function is total: every
      error is turned into an unsuccessful report carrying the error's message. */
  function ProcessQRToken(verified: Result<Option<QrPayload>>, scannedBy: Value, reply: Result<Value>): (r: ScanReport)
    ensures r.call.Some? <==>
              verified.Ok? && verified.value.Some? && Truthy(verified.value.value.eventId)
              && Truthy(verified.value.value.userId) && RecordingProcedure(verified.value.value.kind).Some?
    ensures r.call.Some? ==>
              var d := verified.value.value;
              r.call.value == ProcCall(RecordingProcedure(d.kind).value, [d.eventId, d.userId, scannedBy])
    ensures r.success <==> r.call.Some? && reply == Ok(Num(1))
    ensures verified.Err? ==> r.message == verified.message
    ensures r.call.Some? && reply.Err? ==> r.message == reply.message
    ensures r.success ==>
              r.message == (if verified.value.value.kind == Str("checkin") then "Check-in successful"
                            else "Check-out successful")
    ensures verified.Ok? && r.call.None? ==>
              r.message == (if verified.value.Some? && Truthy(verified.value.value.eventId)
                               && Truthy(verified.value.value.userId) && Truthy(verified.value.value.kind)
                            then "Invalid QR token type" else "Invalid QR token")
  {
    match verified
    case Err(m) => ScanReport(None, false, m)
    case Ok(tokenData) =>
      if tokenData.None? || !Truthy(tokenData.value.eventId) || !Truthy(tokenData.value.userId)
         || !Truthy(tokenData.value.kind) then
        ScanReport(None, false, "Invalid QR token")
      else
        var d := tokenData.value;
        if d.kind == Str("checkin") then
          var call := ProcCall("sp_RecordCheckin", [d.eventId, d.userId, scannedBy]);
          match reply
          case Err(m) => ScanReport(Some(call), false, m)
          case Ok(out0) =>
            var success := StrictEquals(out0, Num(1));
            ScanReport(Some(call), success, if success then "Check-in successful" else "Check-in failed")
        else if d.kind == Str("checkout") then
          var call := ProcCall("sp_RecordCheckout", [d.eventId, d.userId, scannedBy]);
          match reply
          case Err(m) => ScanReport(Some(call), false, m)
          case Ok(out0) =>
            var success := StrictEquals(out0, Num(1));
            ScanReport(Some(call), success, if success then "Check-out successful" else "Check-out failed")
        else
          ScanReport(None, false, "Invalid QR token type")
  }

  /** The messages of a scan that raised no error: a token without its ids or
      type, a token of another type, and a store answer other than 1 each have
      their own message, and the message says success exactly when the scan
      succeeded, naming the kind of scan the token asked for. */
  lemma ScanMessages(verified: Result<Option<QrPayload>>, scannedBy: Value, reply: Result<Value>)
    requires verified.Ok?
    ensures var r := ProcessQRToken(verified, scannedBy, reply);
      && (reply.Ok? ==> (r.success <==> r.message in {"Check-in successful", "Check-out successful"}))
      && (verified.value.None? ==> r.message == "Invalid QR token")
      && (verified.value.Some? ==>
            var d := verified.value.value;
            && (!Truthy(d.eventId) || !Truthy(d.userId) || !Truthy(d.kind) ==> r.message == "Invalid QR token")
            && ((Truthy(d.eventId) && Truthy(d.userId) && Truthy(d.kind) && RecordingProcedure(d.kind).None?)
                ==> r.message == "Invalid QR token type")
            && (r.call.Some? && reply.Ok? && !r.success ==>
                  r.message == (if d.kind == Str("checkin") then "Check-in failed" else "Check-out failed"))
            && (r.success ==>
                  r.message == (if d.kind == Str("checkin") then "Check-in successful" else "Check-out successful")))
  {
  }

  /** An id of 0 counts as missing: such a token is rejected before any store call. */
  lemma ZeroIdRejected(d: QrPayload, scannedBy: Value, reply: Result<Value>)
    requires d.eventId == Num(0) || d.userId == Num(0)
    ensures ProcessQRToken(Ok(Some(d)), scannedBy, reply) == ScanReport(None, false, "Invalid QR token")
  {
  }

  // ---------------------------------------------------------------------------
  // The token check (index.ts:145-168)

  /** A token as `generateQRToken` means it: the payload and its signature.
      The base64 and JSON layers around it are not modelled; `None` stands for
      a string that does not decode to such a pair. */
  datatype QrToken = QrToken(data: QrPayload, signature: string)

  /** `verifyQRToken` as written. `Bun.password.hash` returns a promise that is
      never awaited, so `signature !== expectedSignature` compares a string with
      a promise and always holds; and the hash is salted, so even awaited it
      would differ between signing and checking. Every token is rejected, with
      the signature error relabelled by the `catch`. */
  function VerifyQRTokenAsWritten(token: Option<QrToken>): (r: Result<Option<QrPayload>>)
    ensures r.Err?
  {
    Err("Invalid QR token format")
  }

  /** With the shipped check, no scan ever reaches the store, and every scan
      reports "Invalid QR token format". */
  lemma ShippedVerifierRejectsAll(token: Option<QrToken>, scannedBy: Value, reply: Result<Value>)
    ensures ProcessQRToken(VerifyQRTokenAsWritten(token), scannedBy, reply)
              == ScanReport(None, false, "Invalid QR token format")
  {
  }

  /** `generateQRToken` as intended: the payload signed with `sign`, which
      stands for a deterministic keyed hash of the serialized payload. */
  function GenerateQRToken(data: QrPayload, sign: QrPayload -> string): QrToken {
    QrToken(data, sign(data))
  }

  /** `verifyQRToken` as intended: a decodable token whose signature is the
      deterministic signature of its payload yields that payload; anything else
      is rejected with "Invalid QR token format". */
  function VerifyQRTokenSigned(token: Option<QrToken>, sign: QrPayload -> string): (r: Result<Option<QrPayload>>)
    ensures r.Ok? <==> token.Some? && token.value.signature == sign(token.value.data)
    ensures r.Ok? ==> r.value == Some(token.value.data)
    ensures r.Err? ==> r.message == "Invalid QR token format"
  {
    if token.None? then Err("Invalid QR token format")
    else if token.value.signature != sign(token.value.data) then Err("Invalid QR token format")
    else Ok(Some(token.value.data))
  }

  /** With the intended check, a token issued for a check-in of a user at an
      event, with non-zero ids, records exactly that check-in, on behalf of the
      scanner. */
  lemma SignedTokenRoundTrip(data: QrPayload, sign: QrPayload -> string, scannedBy: Value, reply: Result<Value>)
    requires Truthy(data.eventId) && Truthy(data.userId) && data.kind == Str("checkin")
    ensures VerifyQRTokenSigned(Some(GenerateQRToken(data, sign)), sign) == Ok(Some(data))
    ensures ProcessQRToken(VerifyQRTokenSigned(Some(GenerateQRToken(data, sign)), sign), scannedBy, reply).call
              == Some(ProcCall("sp_RecordCheckin", [data.eventId, data.userId, scannedBy]))
  {
  }
}
