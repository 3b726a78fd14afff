/** The vocabulary-entry handlers.  Entries are shared: any authenticated
    user may list or read them, but only the creator or an admin may change
    or delete one.  A (word, language) pair is unique at creation, whoever
    created the existing entry. */
module VocabEntries {
  import opened Common
  import opened Access
  import opened Database

  /** The validated body of POST /vocab-entries. */
  datatype NewEntry = NewEntry(
    originalWord: string,
    meaning: string,
    description: Option<string>,
    exampleSentence: Option<string>,
    languageId: Id)

  /** The validated body of PUT /vocab-entries/:id: `None` is a field left
      out; the nullable columns take `Some(None)` for an explicit null. */
  datatype EntryPatch = EntryPatch(
    originalWord: Option<string>,
    meaning: Option<string>,
    description: Option<Option<string>>,
    exampleSentence: Option<Option<string>>,
    languageId: Option<Id>)

  /** Some entry already has this word in this language. */
  predicate HasEntry(entries: map<Id, VocabEntry>, word: string, languageId: Id) {
    exists id :: id in entries && entries[id].originalWord == word && entries[id].languageId == languageId
  }

  /** The lookup by id as the shared check sees it: the creator column is
      nullable, and a null creator matches nobody. */
  function Target(entries: map<Id, VocabEntry>, id: Id): Option<Option<Id>> {
    if id in entries then Some(entries[id].createdByUserId) else None
  }

  function CreatedBy(entries: map<Id, VocabEntry>, userId: Id): map<Id, VocabEntry> {
    map id | id in entries && entries[id].createdByUserId == Some(userId) :: entries[id]
  }

  function InLanguage(entries: map<Id, VocabEntry>, languageId: Id): map<Id, VocabEntry> {
    map id | id in entries && entries[id].languageId == languageId :: entries[id]
  }

  /** `after` is `before` with exactly the supplied fields replaced and the
      update time set; id, creator and creation time are kept. */
  ghost predicate Patched(before: VocabEntry, after: VocabEntry, patch: EntryPatch, now: int) {
    && after.id == before.id
    && after.originalWord == (if patch.originalWord.Some? then patch.originalWord.value else before.originalWord)
    && after.meaning == (if patch.meaning.Some? then patch.meaning.value else before.meaning)
    && after.description == (if patch.description.Some? then patch.description.value else before.description)
    && after.exampleSentence ==
         (if patch.exampleSentence.Some? then patch.exampleSentence.value else before.exampleSentence)
    && after.languageId == (if patch.languageId.Some? then patch.languageId.value else before.languageId)
    && after.createdByUserId == before.createdByUserId
    && after.createdAt == before.createdAt
    && after.updatedAt == now
  }

  /** POST /vocab-entries: 401, then 400 for an unknown language, then 409
      for an existing (word, language) pair, else one new row owned by the
      requester. */
  method CreateVocabEntry(db: Db, p: Principal, input: NewEntry, newId: Id, now: int)
    returns (status: nat, created: Option<VocabEntry>)
    requires db.Valid()
    requires newId !in db.entries
    modifies db`entries
    ensures db.Valid()
    ensures !Authenticated(p) ==> status == 401 && db.entries == old(db.entries)
    ensures Authenticated(p) && input.languageId !in db.languages ==>
      status == 400 && db.entries == old(db.entries)
    ensures Authenticated(p) && input.languageId in db.languages
            && HasEntry(old(db.entries), input.originalWord, input.languageId) ==>
      status == 409 && db.entries == old(db.entries)
    ensures Authenticated(p) && input.languageId in db.languages
            && !HasEntry(old(db.entries), input.originalWord, input.languageId) ==>
      status == 201 &&
      db.entries == old(db.entries)[newId := VocabEntry(newId, input.originalWord, input.meaning,
                                                        input.description, input.exampleSentence,
                                                        input.languageId, Some(p.userId.value), now, now)]
    ensures status == 201 ==> created == Some(db.entries[newId])
    ensures status != 201 ==> created.None?
  {
    var createdByUserId := p.userId;
    if !NonEmpty(createdByUserId) {
      return 401, None;
    }
    if input.languageId !in db.languages {
      return 400, None;
    }
    if existing :| existing in db.entries && db.entries[existing].originalWord == input.originalWord
                   && db.entries[existing].languageId == input.languageId {
      return 409, None;
    }
    var row := VocabEntry(newId, input.originalWord, input.meaning, input.description,
                          input.exampleSentence, input.languageId, Some(createdByUserId.value), now, now);
    db.entries := db.entries[newId := row];
    return 201, Some(row);
  }

  /** GET /vocab-entries?language_id=…&user_id=…  No ownership restriction;
      when both filters are given only `user_id` applies, since the query
      built for it replaces the one built for `language_id`. */
  method GetVocabEntries(db: Db, languageIdQuery: Option<string>, userIdQuery: Option<string>)
    returns (status: nat, listing: map<Id, VocabEntry>)
    ensures status == 200
    ensures NonEmpty(userIdQuery) ==> listing == CreatedBy(db.entries, userIdQuery.value)
    ensures !NonEmpty(userIdQuery) && NonEmpty(languageIdQuery) ==>
      listing == InLanguage(db.entries, languageIdQuery.value)
    ensures !NonEmpty(userIdQuery) && !NonEmpty(languageIdQuery) ==> listing == db.entries
  {
    var query := db.entries;
    if NonEmpty(languageIdQuery) {
      query := InLanguage(db.entries, languageIdQuery.value);
    }
    if NonEmpty(userIdQuery) {
      query := CreatedBy(db.entries, userIdQuery.value);
    }
    return 200, query;
  }

  /** GET /vocab-entries/:id: 404 or the entry, with no ownership check. */
  method GetVocabEntryById(db: Db, id: Id) returns (status: nat, entry: Option<VocabEntry>)
    ensures id !in db.entries ==> status == 404 && entry.None?
    ensures id in db.entries ==> status == 200 && entry == Some(db.entries[id])
  {
    if id !in db.entries {
      return 404, None;
    }
    return 200, Some(db.entries[id]);
  }

  /** PUT /vocab-entries/:id: the shared check, then 400 for an unknown new
      language, else only the supplied fields change.  The (word, language)
      uniqueness that create enforces is not checked again. */
  method UpdateVocabEntry(db: Db, p: Principal, id: Id, patch: EntryPatch, now: int)
    returns (status: nat, updated: Option<VocabEntry>)
    requires db.Valid()
    modifies db`entries
    ensures db.Valid()
    ensures status == 200 ==> id in db.entries && updated == Some(db.entries[id])
    ensures status != 200 ==> updated.None?
    ensures var d := Authorize(p, Target(old(db.entries), id));
      d != Allowed ==> status == RejectStatus(d) && db.entries == old(db.entries)
    ensures Authorize(p, Target(old(db.entries), id)) == Allowed
            && patch.languageId.Some? && patch.languageId.value !in db.languages ==>
      status == 400 && db.entries == old(db.entries)
    ensures Authorize(p, Target(old(db.entries), id)) == Allowed
            && !(patch.languageId.Some? && patch.languageId.value !in db.languages) ==>
      && status == 200
      && id in db.entries
      && db.entries == old(db.entries)[id := db.entries[id]]
      && Patched(old(db.entries)[id], db.entries[id], patch, now)
  {
    if !NonEmpty(p.userId) {
      return 401, None;
    }
    if id !in db.entries {
      return 404, None;
    }
    var existing := db.entries[id];
    if existing.createdByUserId != Some(p.userId.value) && !IsAdmin(p) {
      return 403, None;
    }
    var row := existing.(updatedAt := now);
    if patch.originalWord.Some? {
      row := row.(originalWord := patch.originalWord.value);
    }
    if patch.meaning.Some? {
      row := row.(meaning := patch.meaning.value);
    }
    if patch.description.Some? {
      row := row.(description := patch.description.value);
    }
    if patch.exampleSentence.Some? {
      row := row.(exampleSentence := patch.exampleSentence.value);
    }
    if patch.languageId.Some? {
      if patch.languageId.value !in db.languages {
        return 400, None;
      }
      row := row.(languageId := patch.languageId.value);
    }
    db.entries := db.entries[id := row];
    return 200, Some(row);
  }

  /** DELETE /vocab-entries/:id: removes exactly that entry, with 204. */
  method DeleteVocabEntry(db: Db, p: Principal, id: Id) returns (status: nat)
    requires db.Valid()
    modifies db`entries
    ensures db.Valid()
    ensures var d := Authorize(p, Target(old(db.entries), id));
      d != Allowed ==> status == RejectStatus(d) && db.entries == old(db.entries)
    ensures Authorize(p, Target(old(db.entries), id)) == Allowed ==>
      status == 204 && db.entries == old(db.entries) - {id}
  {
    if !NonEmpty(p.userId) {
      return 401;
    }
    if id !in db.entries {
      return 404;
    }
    if db.entries[id].createdByUserId != Some(p.userId.value) && !IsAdmin(p) {
      return 403;
    }
    db.entries := db.entries - {id};
    return 204;
  }

  /** Updating an entry's word onto another entry's (word, language) pair
      succeeds, so the pair is unique only as far as create is concerned. */
  method UpdateDuplicatesPairScenario()
  {
    var db := new Db();
    db.languages := map["l1" := Language("l1", "English", "en", 0, 0)];
    var author := Principal(Some("u1"), Some(JString("user")));
    var status, row := CreateVocabEntry(db, author, NewEntry("run", "berlari", None, None, "l1"), "e1", 0);
    status, row := CreateVocabEntry(db, author, NewEntry("walk", "berjalan", None, None, "l1"), "e2", 0);
    assert status == 201;
    status, row := UpdateVocabEntry(db, author, "e2", EntryPatch(Some("run"), None, None, None, None), 1);
    assert status == 200 && row.Some? && row.value.originalWord == "run";
    assert db.entries["e1"].originalWord == db.entries["e2"].originalWord;
    assert db.entries["e1"].languageId == db.entries["e2"].languageId;
  }
}
