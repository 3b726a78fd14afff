/** The response envelope every newer handler sends, and the mapping of a
    caught error to a status. */
module ApiResponse {
  import opened Common
  import opened Http

  /** `sendApiResponse`: the envelope always carries success, message and
      data (null unless given); the `errors` key is added only for a
      non-null, non-empty list; the status sent is the one passed in. */
  function SendApiResponse(status: nat, success: bool, message: string,
                           data: Json := JNull, errors: Option<seq<Issue>> := None): (r: HttpResponse)
    ensures r.status == status && r.body.EnvelopeBody?
    ensures r.body.envelope.success == success
    ensures r.body.envelope.message == message
    ensures r.body.envelope.data == data
    ensures r.body.envelope.errors.Some? <==> errors.Some? && |errors.value| > 0
    ensures r.body.envelope.errors.Some? ==> r.body.envelope.errors == errors
  {
    var response := Envelope(success, message, data, None);
    var response := if errors.Some? && |errors.value| > 0 then response.(errors := errors) else response;
    HttpResponse(status, EnvelopeBody(response))
  }

  /** What a handler's `catch` can receive. */
  datatype Thrown = ZodError(issues: seq<Issue>) | OtherError

  /** `handleServerError`: a ZodError is a 400 "Validation error" carrying
      its issues; anything else is a 500 with the custom message when it is
      non-empty and "Internal server error" otherwise. */
  function HandleServerError(error: Thrown, customMessage: Option<string>): (r: HttpResponse)
    ensures r.body.EnvelopeBody? && !r.body.envelope.success && r.body.envelope.data == JNull
    ensures error.ZodError? ==>
      && r.status == 400
      && r.body.envelope.message == "Validation error"
      && (r.body.envelope.errors.Some? <==> |error.issues| > 0)
      && (r.body.envelope.errors.Some? ==> r.body.envelope.errors.value == error.issues)
    ensures error.OtherError? ==>
      && r.status == 500
      && r.body.envelope.errors.None?
      && r.body.envelope.message == if NonEmpty(customMessage) then customMessage.value else "Internal server error"
  {
    match error
    case ZodError(issues) => SendApiResponse(400, false, "Validation error", JNull, Some(issues))
    case OtherError =>
      SendApiResponse(500, false, if NonEmpty(customMessage) then customMessage.value else "Internal server error", JNull)
  }
}
