/** What the middleware chain reads and writes: the fields it adds to the
    request (`userId`, `role`, `cleanBody`), the response it sends, and how
    many times it hands the request on with `next()`. */
module Http {
  import opened Common

  /** One segment of a Zod issue path: an object key or an array index. */
  datatype PathSegment = Key(key: string) | Index(index: nat)

  /** A Zod issue: where the value failed and why. */
  datatype Issue = Issue(path: seq<PathSegment>, message: string)

  /** The `{ field, message }` record the validation middleware sends. */
  datatype FieldError = FieldError(field: string, message: string)

  /** The standard envelope; `errors: None` is a missing `errors` key. */
  datatype Envelope = Envelope(success: bool, message: string, data: Json, errors: Option<seq<Issue>>)

  datatype Body =
    | EnvelopeBody(envelope: Envelope)
    | ValidationErrors(message: string, errors: seq<FieldError>)
    | MessageOnly(message: string)

  datatype HttpResponse = HttpResponse(status: nat, body: Body)

  /** One request and its response as the middleware sees them. */
  class Exchange {
    var userId: Option<string>
    var role: Option<Json>
    var cleanBody: Option<Json>
    var response: Option<HttpResponse>
    var nextCalls: nat

    constructor ()
      ensures userId == None && role == None && cleanBody == None
      ensures response == None && nextCalls == 0
    {
      userId, role, cleanBody, response, nextCalls := None, None, None, None, 0;
    }
  }
}
