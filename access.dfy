/** The ownership rule shared by the API's resource handlers: who made the
    request (`req.userId`, `req.role`, as set by `verifyToken`), and the
    fixed order in which a single-resource handler rejects it (401, then 404,
    then 403). */
module Access {
  import opened Common

  /** The request fields a handler reads: `req.userId` and `req.role`. */
  datatype Principal = Principal(userId: Option<string>, role: Option<Json>)

  /** `if (!userId)` fails exactly when the id is undefined or empty. */
  predicate Authenticated(p: Principal) {
    NonEmpty(p.userId)
  }

  /** `userRole === "admin"`: strict equality with the string "admin". */
  predicate IsAdmin(p: Principal) {
    p.role == Some(JString("admin"))
  }

  /** The outcome of the shared check, before the handler does its work. */
  datatype Decision = Unauthenticated | NotFound | Forbidden | Allowed

  /** The HTTP status a handler sends for a rejecting decision. */
  function RejectStatus(d: Decision): (status: nat)
    requires d != Allowed
  {
    match d
    case Unauthenticated => 401
    case NotFound => 404
    case Forbidden => 403
  }

  /** The check of get-by-id, update and delete.  `target` is `None` when
      the lookup by id found no row, and otherwise the row's recorded owner
      (itself `None` for a vocabulary entry whose creator is gone).
      A missing user wins over a missing row, which wins over ownership;
      access is granted to the owner or to an admin and to nobody else. */
  function Authorize(p: Principal, target: Option<Option<Id>>): (d: Decision)
    ensures d == Unauthenticated <==> !Authenticated(p)
    ensures d == NotFound <==> Authenticated(p) && target.None?
    ensures d == Allowed <==>
      Authenticated(p) && target.Some? && (target.value == Some(p.userId.value) || IsAdmin(p))
    ensures d == Forbidden <==>
      Authenticated(p) && target.Some? && target.value != Some(p.userId.value) && !IsAdmin(p)
  {
    if !Authenticated(p) then Unauthenticated
    else if target.None? then NotFound
    else if target.value != Some(p.userId.value) && !IsAdmin(p) then Forbidden
    else Allowed
  }

  /** What a category listing may show. */
  datatype ListingDecision = ListUnauthenticated | ListForbidden | ListOwnedBy(owner: Id)

  /** The category listing filter: without a (truthy) `user_id` query the
      listing is the requester's own categories, for every role including
      admin; naming a user is allowed for that user themself or an admin,
      and otherwise rejects the whole request. */
  function ListingScope(p: Principal, userIdQuery: Option<string>): (d: ListingDecision)
    ensures d == ListUnauthenticated <==> !Authenticated(p)
    ensures Authenticated(p) && !NonEmpty(userIdQuery) ==> d == ListOwnedBy(p.userId.value)
    ensures Authenticated(p) && NonEmpty(userIdQuery) ==>
      d == if IsAdmin(p) || userIdQuery.value == p.userId.value
           then ListOwnedBy(userIdQuery.value)
           else ListForbidden
    ensures d.ListOwnedBy? ==>
      d.owner == p.userId.value || (IsAdmin(p) && userIdQuery == Some(d.owner))
  {
    if !Authenticated(p) then ListUnauthenticated
    else
      var filterOwner := p.userId.value;
      if NonEmpty(userIdQuery) then
        if IsAdmin(p) || userIdQuery.value == p.userId.value then ListOwnedBy(userIdQuery.value)
        else ListForbidden
      else ListOwnedBy(filterOwner)
  }
}
