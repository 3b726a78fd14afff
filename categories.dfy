/** The category handlers: create, list, get, update (rename) and delete a
    user's vocabulary categories.  Each handler reads the principal left by
    `verifyToken` and the validated body, answers with a status code and may
    change the `categories` table. */
module Categories {
  import opened Common
  import opened Access
  import opened Database

  /** The user `owner` already has a category called `name`. */
  predicate HasCategoryNamed(categories: map<Id, Category>, owner: Id, name: string) {
    exists id :: id in categories && categories[id].userId == owner && categories[id].name == name
  }

  /** The lookup by id as the shared check sees it. */
  function Target(categories: map<Id, Category>, id: Id): Option<Option<Id>> {
    if id in categories then Some(Some(categories[id].userId)) else None
  }

  /** The rows a listing filtered on `userId == owner` returns. */
  function OwnedBy(categories: map<Id, Category>, owner: Id): map<Id, Category> {
    map id | id in categories && categories[id].userId == owner :: categories[id]
  }

  /** POST /categories.  The name must be new among the requester's own
      categories; another user's category of that name does not block it. */
  method CreateCategory(db: Db, p: Principal, name: string, newId: Id, now: int)
    returns (status: nat, created: Option<Category>)
    requires db.Valid()
    requires newId !in db.categories
    modifies db`categories
    ensures db.Valid()
    ensures !Authenticated(p) ==> status == 401 && db.categories == old(db.categories)
    ensures Authenticated(p) && HasCategoryNamed(old(db.categories), p.userId.value, name) ==>
      status == 409 && db.categories == old(db.categories)
    ensures Authenticated(p) && !HasCategoryNamed(old(db.categories), p.userId.value, name) ==>
      status == 201 &&
      db.categories == old(db.categories)[newId := Category(newId, p.userId.value, name, now, now)]
    ensures status == 201 ==> created == Some(db.categories[newId])
    ensures status != 201 ==> created.None?
  {
    var userId := p.userId;
    if !NonEmpty(userId) {
      return 401, None;
    }
    if existing :| existing in db.categories && db.categories[existing].name == name
                   && db.categories[existing].userId == userId.value {
      return 409, None;
    }
    var row := Category(newId, userId.value, name, now, now);
    db.categories := db.categories[newId := row];
    return 201, Some(row);
  }

  /** GET /categories?user_id=…  Only ever lists one owner's categories:
      the requester's unless an admin (or the requester themself) names a
      user; a non-admin naming someone else is refused outright. */
  method GetCategories(db: Db, p: Principal, userIdQuery: Option<string>)
    returns (status: nat, listing: map<Id, Category>)
    ensures ListingScope(p, userIdQuery) == ListUnauthenticated ==> status == 401 && listing == map[]
    ensures ListingScope(p, userIdQuery) == ListForbidden ==> status == 403 && listing == map[]
    ensures ListingScope(p, userIdQuery).ListOwnedBy? ==>
      status == 200 && listing == OwnedBy(db.categories, ListingScope(p, userIdQuery).owner)
    ensures forall id :: id in listing ==>
      && id in db.categories
      && listing[id] == db.categories[id]
      && (p.userId == Some(listing[id].userId) || (IsAdmin(p) && userIdQuery == Some(listing[id].userId)))
  {
    if !NonEmpty(p.userId) {
      return 401, map[];
    }
    var filterOwner := p.userId.value;
    if NonEmpty(userIdQuery) {
      if IsAdmin(p) || userIdQuery.value == p.userId.value {
        filterOwner := userIdQuery.value;
      } else {
        return 403, map[];
      }
    }
    return 200, OwnedBy(db.categories, filterOwner);
  }

  /** GET /categories/:id: owner or admin only. */
  method GetCategoryById(db: Db, p: Principal, id: Id) returns (status: nat, category: Option<Category>)
    ensures Authorize(p, Target(db.categories, id)) != Allowed ==>
      status == RejectStatus(Authorize(p, Target(db.categories, id))) && category.None?
    ensures Authorize(p, Target(db.categories, id)) == Allowed ==>
      status == 200 && id in db.categories && category == Some(db.categories[id])
  {
    if !NonEmpty(p.userId) {
      return 401, None;
    }
    if id !in db.categories {
      return 404, None;
    }
    var found := db.categories[id];
    if found.userId != p.userId.value && !IsAdmin(p) {
      return 403, None;
    }
    return 200, Some(found);
  }

  /** PUT /categories/:id.  After the shared check, a supplied name is
      tested for a conflict among the categories of the REQUESTER (not of
      the owner) with that name, and the category's own id is not excluded:
      renaming a category to its current name is refused with 409. */
  method UpdateCategory(db: Db, p: Principal, id: Id, name: Option<string>, now: int)
    returns (status: nat, updated: Option<Category>)
    requires db.Valid()
    modifies db`categories
    ensures db.Valid()
    ensures status == 200 ==> id in db.categories && updated == Some(db.categories[id])
    ensures status != 200 ==> updated.None?
    ensures var d := Authorize(p, Target(old(db.categories), id));
      d != Allowed ==> status == RejectStatus(d) && db.categories == old(db.categories)
    ensures Authorize(p, Target(old(db.categories), id)) == Allowed && name.Some?
            && HasCategoryNamed(old(db.categories), p.userId.value, name.value) ==>
      status == 409 && db.categories == old(db.categories)
    ensures Authorize(p, Target(old(db.categories), id)) == Allowed
            && !(name.Some? && HasCategoryNamed(old(db.categories), p.userId.value, name.value)) ==>
      var before := old(db.categories)[id];
      status == 200 &&
      db.categories == old(db.categories)[id := before.(name := if name.Some? then name.value else before.name,
                                                         updatedAt := now)]
    ensures Authenticated(p) && id in old(db.categories) && old(db.categories)[id].userId == p.userId.value
            && name == Some(old(db.categories)[id].name) ==>
      status == 409 && db.categories == old(db.categories)
  {
    if !NonEmpty(p.userId) {
      return 401, None;
    }
    var userId := p.userId.value;
    if id !in db.categories {
      return 404, None;
    }
    var existing := db.categories[id];
    if existing.userId != userId && !IsAdmin(p) {
      return 403, None;
    }
    var row := existing.(updatedAt := now);
    if name.Some? {
      // The self-exclusion term of the conflict query is always undefined,
      // so only the name and the requester's id are matched.
      if conflict :| conflict in db.categories && db.categories[conflict].name == name.value
                     && db.categories[conflict].userId == userId {
        return 409, None;
      }
      row := row.(name := name.value);
    }
    db.categories := db.categories[id := row];
    return 200, Some(row);
  }

  /** Some category of `owner` other than `self` is called `name`. */
  predicate HasOtherCategoryNamed(categories: map<Id, Category>, owner: Id, name: string, self: Id) {
    exists id :: id in categories && id != self && categories[id].userId == owner && categories[id].name == name
  }

  /** PUT /categories/:id with the conflict query excluding the category
      being renamed, as its comment and its 409 message ("another
      category") intend.  Saving a category under its current name then
      succeeds unless the owner has a second category of that name. */
  method UpdateCategoryExcludingSelf(db: Db, p: Principal, id: Id, name: Option<string>, now: int)
    returns (status: nat, updated: Option<Category>)
    requires db.Valid()
    modifies db`categories
    ensures db.Valid()
    ensures status == 200 ==> id in db.categories && updated == Some(db.categories[id])
    ensures status != 200 ==> updated.None?
    ensures var d := Authorize(p, Target(old(db.categories), id));
      d != Allowed ==> status == RejectStatus(d) && db.categories == old(db.categories)
    ensures Authorize(p, Target(old(db.categories), id)) == Allowed && name.Some?
            && HasOtherCategoryNamed(old(db.categories), p.userId.value, name.value, id) ==>
      status == 409 && db.categories == old(db.categories)
    ensures Authorize(p, Target(old(db.categories), id)) == Allowed
            && !(name.Some? && HasOtherCategoryNamed(old(db.categories), p.userId.value, name.value, id)) ==>
      var before := old(db.categories)[id];
      status == 200 &&
      db.categories == old(db.categories)[id := before.(name := if name.Some? then name.value else before.name,
                                                         updatedAt := now)]
    ensures Authenticated(p) && id in old(db.categories) && old(db.categories)[id].userId == p.userId.value
            && name == Some(old(db.categories)[id].name)
            && !HasOtherCategoryNamed(old(db.categories), p.userId.value, name.value, id) ==>
      status == 200 && id in db.categories && db.categories[id].name == old(db.categories)[id].name
  {
    if !NonEmpty(p.userId) {
      return 401, None;
    }
    var userId := p.userId.value;
    if id !in db.categories {
      return 404, None;
    }
    var existing := db.categories[id];
    if existing.userId != userId && !IsAdmin(p) {
      return 403, None;
    }
    var row := existing.(updatedAt := now);
    if name.Some? {
      if conflict :| conflict in db.categories && conflict != id && db.categories[conflict].name == name.value
                     && db.categories[conflict].userId == userId {
        return 409, None;
      }
      row := row.(name := name.value);
    }
    db.categories := db.categories[id := row];
    return 200, Some(row);
  }

  /** DELETE /categories/:id: removes exactly that row, with 204. */
  method DeleteCategory(db: Db, p: Principal, id: Id) returns (status: nat)
    requires db.Valid()
    modifies db`categories
    ensures db.Valid()
    ensures var d := Authorize(p, Target(old(db.categories), id));
      d != Allowed ==> status == RejectStatus(d) && db.categories == old(db.categories)
    ensures Authorize(p, Target(old(db.categories), id)) == Allowed ==>
      status == 204 && db.categories == old(db.categories) - {id}
  {
    if !NonEmpty(p.userId) {
      return 401;
    }
    if id !in db.categories {
      return 404;
    }
    if db.categories[id].userId != p.userId.value && !IsAdmin(p) {
      return 403;
    }
    db.categories := db.categories - {id};
    return 204;
  }

  /** An owner saving a category under its current name is refused. */
  method RenameToCurrentNameScenario()
  {
    var db := new Db();
    var owner := Principal(Some("u1"), Some(JString("user")));
    var status, created := CreateCategory(db, owner, "verbs", "c1", 0);
    assert status == 201 && created == Some(Category("c1", "u1", "verbs", 0, 0));
    var updated;
    status, updated := UpdateCategory(db, owner, "c1", Some("verbs"), 1);
    assert status == 409 && updated.None?;
    status, updated := UpdateCategoryExcludingSelf(db, owner, "c1", Some("verbs"), 2);
    assert status == 200 && updated == Some(Category("c1", "u1", "verbs", 0, 2));
  }

  /** An admin renaming another user's category is checked against the
      admin's own categories, so the owner can end up with two categories
      of the same name, which create would never allow. */
  method AdminRenameDuplicateScenario()
  {
    var db := new Db();
    var owner := Principal(Some("u1"), Some(JString("user")));
    var admin := Principal(Some("a1"), Some(JString("admin")));
    var status, row := CreateCategory(db, owner, "verbs", "c1", 0);
    status, row := CreateCategory(db, owner, "nouns", "c2", 0);
    assert status == 201;
    status, row := UpdateCategory(db, admin, "c2", Some("verbs"), 1);
    assert status == 200;
    assert db.categories["c1"].userId == db.categories["c2"].userId == "u1";
    assert db.categories["c1"].name == db.categories["c2"].name == "verbs";
  }
}
