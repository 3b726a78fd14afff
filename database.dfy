/** The rows the API keeps (users, categories, vocabulary entries and
    languages) and the in-memory store that stands for the database.
    Timestamps are abstract integers supplied by the caller. */
module Database {
  import opened Common

  /** A bcrypt digest: a type of its own, so a plain password cannot be
      stored where a digest is expected. */
  datatype PasswordHash = PasswordHash(digest: string)

  datatype User = User(
    id: Id,
    name: string,
    email: string,
    password: PasswordHash,
    currentLanguageId: Option<Id>,
    createdAt: int,
    updatedAt: int)

  /** A user as the user endpoints return it: every column except
      `password`. */
  datatype PublicUser = PublicUser(
    id: Id,
    name: string,
    email: string,
    currentLanguageId: Option<Id>,
    createdAt: int,
    updatedAt: int)

  datatype Category = Category(id: Id, userId: Id, name: string, createdAt: int, updatedAt: int)

  datatype VocabEntry = VocabEntry(
    id: Id,
    originalWord: string,
    meaning: string,
    description: Option<string>,
    exampleSentence: Option<string>,
    languageId: Id,
    createdByUserId: Option<Id>,
    createdAt: int,
    updatedAt: int)

  datatype Language = Language(id: Id, name: string, code: string, createdAt: int, updatedAt: int)

  /** `const { password, ...userWithoutPassword } = user`. */
  function ToPublic(u: User): PublicUser {
    PublicUser(u.id, u.name, u.email, u.currentLanguageId, u.createdAt, u.updatedAt)
  }

  /** Stripping the password loses the password and nothing else: two rows
      have the same public view exactly when they differ at most in their
      digests. */
  lemma ToPublicForgetsOnlyPassword(u: User, v: User)
    ensures ToPublic(u) == ToPublic(v) <==> u.(password := v.password) == v
  {
  }

  /** The `email` column is `unique()`. */
  predicate EmailsUnique(users: map<Id, User>) {
    forall a, b :: a in users && b in users && users[a].email == users[b].email ==> a == b
  }

  /** The `code` column of `languages` is `unique()`. */
  predicate CodesUnique(languages: map<Id, Language>) {
    forall a, b :: a in languages && b in languages && languages[a].code == languages[b].code ==> a == b
  }

  /** Some user has this email (the `findFirst` on `users.email`). */
  predicate EmailTaken(users: map<Id, User>, email: string) {
    exists id :: id in users && users[id].email == email
  }

  /** The language codes present in the table. */
  function Codes(languages: map<Id, Language>): set<string> {
    set id | id in languages :: languages[id].code
  }

  /** The database: one map from id to row per table. */
  class Db {
    var users: map<Id, User>
    var categories: map<Id, Category>
    var entries: map<Id, VocabEntry>
    var languages: map<Id, Language>

    /** Every row is stored under its own id, and the schema's unique
        columns hold. */
    ghost predicate Valid()
      reads this
    {
      && (forall id :: id in users ==> users[id].id == id)
      && (forall id :: id in categories ==> categories[id].id == id)
      && (forall id :: id in entries ==> entries[id].id == id)
      && (forall id :: id in languages ==> languages[id].id == id)
      && EmailsUnique(users)
      && CodesUnique(languages)
    }

    constructor ()
      ensures Valid()
      ensures users == map[] && categories == map[] && entries == map[] && languages == map[]
    {
      users, categories, entries, languages := map[], map[], map[], map[];
    }
  }
}
