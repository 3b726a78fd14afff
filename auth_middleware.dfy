/** `verifyToken` and `authorizeRoles`.  The token comes from the
    `Authorization` header, loosely after the Bearer scheme of section 2.1
    of RFC 6750: `Bearer <token>`, or a bare token.  Verifying the JWT
    signature is the job of the `verify` parameter; this module decides what
    the decoded payload means. */
module AuthMiddleware {
  import opened Common
  import opened Access
  import opened Http
  import opened ApiResponse

  const BearerPrefix: string := "Bearer "

  /** `s.split(" ")[0]`: the text before the first space. */
  function FirstSegment(s: string): (r: string)
    ensures r <= s
    ensures ' ' !in r
    ensures |r| == |s| || s[|r|] == ' '
  {
    if s == [] || s[0] == ' ' then [] else [s[0]] + FirstSegment(s[1..])
  }

  /** The token of an `Authorization` header: after `"Bearer "` it is the
      second space-separated segment (possibly empty); any other header,
      including one without the prefix, is taken verbatim. */
  function ExtractToken(header: Option<string>): (token: Option<string>)
    ensures header.None? ==> token.None?
    ensures header.Some? && !(BearerPrefix <= header.value) ==> token == header
    ensures header.Some? && BearerPrefix <= header.value ==>
      && token.Some?
      && ' ' !in token.value
      && BearerPrefix + token.value <= header.value
      && (|header.value| == |BearerPrefix| + |token.value| || header.value[|BearerPrefix| + |token.value|] == ' ')
  {
    if header.Some? && header.value != "" && BearerPrefix <= header.value
    then Some(FirstSegment(header.value[|BearerPrefix|..]))
    else header
  }

  /** The first segment of a space-free word followed by nothing or by a
      space is the word itself. */
  lemma {:induction false} FirstSegmentOfWord(word: string, rest: string)
    requires ' ' !in word
    requires rest == [] || rest[0] == ' '
    ensures FirstSegment(word + rest) == word
  {
    if word != [] {
      assert (word + rest)[1..] == word[1..] + rest;
      FirstSegmentOfWord(word[1..], rest);
    }
  }

  /** A well-formed Bearer header yields exactly its token, whatever
      space-separated text follows it. */
  lemma BearerTokenRoundTrip(token: string, rest: string)
    requires ' ' !in token
    requires rest == [] || rest[0] == ' '
    ensures ExtractToken(Some(BearerPrefix + token + rest)) == Some(token)
  {
    var header := BearerPrefix + token + rest;
    assert header[|BearerPrefix|..] == token + rest;
    FirstSegmentOfWord(token, rest);
  }

  /** The shape check and role default of `verifyToken`: the payload must
      be an object with a string `userId`; the role is the payload's role
      when truthy and `"user"` otherwise, so it is never falsy. */
  function PrincipalFromPayload(decoded: Json): (r: Option<Principal>)
    ensures r.Some? <==> decoded.JObject? && "userId" in decoded.fields && decoded.fields["userId"].JString?
    ensures r.Some? ==> r.value.userId == Some(decoded.fields["userId"].s)
    ensures r.Some? && !("role" in decoded.fields && Truthy(decoded.fields["role"])) ==>
      r.value.role == Some(JString("user"))
    ensures r.Some? && "role" in decoded.fields && Truthy(decoded.fields["role"]) ==>
      r.value.role == Some(decoded.fields["role"])
    ensures r.Some? ==> TruthyOpt(r.value.role)
  {
    match decoded
    case JObject(fields) =>
      if "userId" in fields && fields["userId"].JString? then
        var role := if "role" in fields && Truthy(fields["role"]) then fields["role"] else JString("user");
        Some(Principal(Some(fields["userId"].s), Some(role)))
      else None
    case _ => None
  }

  /** What `jwt.verify` does with a token: throw, or return the payload. */
  datatype Verification = VerifyFailed | Verified(decoded: Json)

  /** `verifyToken`: 401 for a missing or empty token, for a failed
      verification and for a malformed payload, never calling `next`;
      otherwise sets `req.userId` and `req.role` and calls `next` once. */
  method VerifyToken(ex: Exchange, header: Option<string>, verify: string -> Verification)
    modifies ex`userId, ex`role, ex`response, ex`nextCalls
    ensures var token := ExtractToken(header);
      !NonEmpty(token) ==>
        && ex.response == Some(SendApiResponse(401, false, "Access denied. No token provided."))
        && ex.nextCalls == old(ex.nextCalls)
        && ex.userId == old(ex.userId) && ex.role == old(ex.role)
    ensures var token := ExtractToken(header);
      NonEmpty(token) && verify(token.value).VerifyFailed? ==>
        && ex.response == Some(SendApiResponse(401, false, "Invalid or expired token."))
        && ex.nextCalls == old(ex.nextCalls)
        && ex.userId == old(ex.userId) && ex.role == old(ex.role)
    ensures var token := ExtractToken(header);
      NonEmpty(token) && verify(token.value).Verified? && PrincipalFromPayload(verify(token.value).decoded).None? ==>
        && ex.response == Some(SendApiResponse(401, false, "Invalid token payload or userId type mismatch."))
        && ex.nextCalls == old(ex.nextCalls)
        && ex.userId == old(ex.userId) && ex.role == old(ex.role)
    ensures var token := ExtractToken(header);
      NonEmpty(token) && verify(token.value).Verified? && PrincipalFromPayload(verify(token.value).decoded).Some? ==>
        var p := PrincipalFromPayload(verify(token.value).decoded).value;
        && ex.userId == p.userId && ex.role == p.role
        && ex.nextCalls == old(ex.nextCalls) + 1
        && ex.response == old(ex.response)
  {
    var token := ExtractToken(header);
    if !NonEmpty(token) {
      ex.response := Some(SendApiResponse(401, false, "Access denied. No token provided."));
      return;
    }
    var outcome := verify(token.value);
    if outcome.VerifyFailed? {
      ex.response := Some(SendApiResponse(401, false, "Invalid or expired token."));
      return;
    }
    var principal := PrincipalFromPayload(outcome.decoded);
    if principal.None? {
      ex.response := Some(SendApiResponse(401, false, "Invalid token payload or userId type mismatch."));
      return;
    }
    ex.userId := principal.value.userId;
    ex.role := principal.value.role;
    ex.nextCalls := ex.nextCalls + 1;
  }

  /** The membership test of `authorizeRoles`: the role must be truthy and
      strictly equal to one of the allowed strings. */
  function RoleAllowed(role: Option<Json>, allowedRoles: seq<string>): (ok: bool)
    ensures ok <==> exists r :: r in allowedRoles && r != "" && role == Some(JString(r))
  {
    TruthyOpt(role) && role.value.JString? && role.value.s in allowedRoles
  }

  /** `authorizeRoles(allowedRoles)`: `next` for an allowed role, else 403. */
  method AuthorizeRoles(ex: Exchange, allowedRoles: seq<string>)
    modifies ex`response, ex`nextCalls
    ensures RoleAllowed(ex.role, allowedRoles) ==>
      ex.nextCalls == old(ex.nextCalls) + 1 && ex.response == old(ex.response)
    ensures !RoleAllowed(ex.role, allowedRoles) ==>
      && ex.nextCalls == old(ex.nextCalls)
      && ex.response == Some(SendApiResponse(403, false, "Forbidden: Insufficient role permissions."))
  {
    var userRole := ex.role;
    if !TruthyOpt(userRole) || !(userRole.value.JString? && userRole.value.s in allowedRoles) {
      ex.response := Some(SendApiResponse(403, false, "Forbidden: Insufficient role permissions."));
      return;
    }
    ex.nextCalls := ex.nextCalls + 1;
  }
}
