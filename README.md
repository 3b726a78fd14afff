# Vocabulary app core, modelled in Dafny

This project models the decision logic of a vocabulary-learning app:

- The Express API's resource handlers for categories, vocabulary entries and users. They work over an in-memory store: one map per table, held by the class `Database.Db`.
- The token and role middleware, the body-validation middleware and the response envelope.
- The language seed.
- The design-system `Button`: its colour table, frame, label, icon and loader.
- The mobile app's `AuthContext` session state.

Handlers are methods. They take the principal that `verifyToken` left on the request (`req.userId`, `req.role`) and the validated body. Each returns its status code, and may change the tables its `modifies` clause names.

The shared rule `Access.Authorize` fixes the order of the checks: 401, then 404, then 403. It grants access to the owner or to a requester whose role is exactly the string `"admin"`.

These become parameters:
- fresh ids;
- timestamps;
- bcrypt hashing and comparison;
- JWT signature verification;
- the Zod parse.

Modules, one per file:
- `Common` (Option, Result, JSON values and JavaScript truthiness)
- `Access`
- `Database`
- `Http` (the request/response exchange seen by middleware)
- `ApiResponse`
- `AuthMiddleware`
- `ValidationMiddleware`
- `Categories`
- `VocabEntries`
- `Users`
- `LanguageSeed`
- `ButtonColors` (with the types and sizes of the button context)
- `ButtonFrame`
- `ButtonText`
- `ButtonIcon`
- `ButtonLoader`
- `Button`
- `AuthContext`

Methods without contracts act out the quirks on concrete data:
- `Categories.RenameToCurrentNameScenario`
- `Categories.AdminRenameDuplicateScenario`
- `VocabEntries.UpdateDuplicatesPairScenario`
- `Users.RegisterThenLoginScenario`
- `ButtonLoader.TicksScenario`
- `AuthContext.SessionScenario`

## Model

| member | source | states |
|---|---|---|
| Access.Authorize | apps/api/src/controllers/categories.ts:139-160 | Without a user id the check fails with 401, then 404 for a missing row, then 403 unless the requester owns the row or is an admin. Each outcome is stated with both directions of its condition. |
| Access.ListingScope | apps/api/src/controllers/categories.ts:72-110 | Without `user_id` the listing is the requester's own, admins included. Naming a user is allowed for that user or an admin and is 403 otherwise. Any owner listed is the requester, or a user an admin named. |
| Database.Db.constructor | apps/api/src/db/schema/users.ts:11 | The empty store satisfies the table invariants: rows keyed by id, emails unique, language codes unique. |
| Categories.CreateCategory | apps/api/src/controllers/categories.ts:22-50 | 401 with no change. 409 with no change when the requester already has a category of that name; another user's category does not block it. Otherwise 201 and exactly one new row, owned by the requester, which is also returned. Nothing is returned on a rejection. |
| Categories.GetCategories | apps/api/src/controllers/categories.ts:72-121 | The status and listing follow `ListingScope`. Every listed row is a stored row whose owner is the requester, or a user an admin named. |
| Categories.GetCategoryById | apps/api/src/controllers/categories.ts:139-164 | The rejections follow `Authorize`. Otherwise 200 with the stored row. |
| Categories.UpdateCategory | apps/api/src/controllers/categories.ts:181-255 | The rejections follow `Authorize` and leave the table unchanged. 409 when the requester has a category with the new name, the renamed one included. Otherwise 200, only the supplied name and the update time change, and the updated row is returned. The owner saving the current name gets 409. |
| Categories.UpdateCategoryExcludingSelf | apps/api/src/controllers/categories.ts:213-234 | The same as `UpdateCategory`, except that the conflict ignores the category being renamed. Saving the current name succeeds unless the owner has another category of that name. On 200 the updated row is returned. |
| Categories.DeleteCategory | apps/api/src/controllers/categories.ts:277-314 | The rejections follow `Authorize`. Otherwise 204, and exactly that row is removed. |
| VocabEntries.CreateVocabEntry | apps/api/src/controllers/vocabEntries.ts:16-50 | 401, then 400 for an unknown language, then 409 when any user's entry has the same (word, language) pair. Otherwise 201 and one new entry created by the requester, which is also returned. |
| VocabEntries.GetVocabEntries | apps/api/src/controllers/vocabEntries.ts:63-84 | Always 200. A `user_id` filter replaces a `language_id` filter. Without filters, every entry is listed. |
| VocabEntries.GetVocabEntryById | apps/api/src/controllers/vocabEntries.ts:97-110 | 404, or 200 with the stored entry, whoever asks. |
| VocabEntries.UpdateVocabEntry | apps/api/src/controllers/vocabEntries.ts:125-173 | The rejections follow `Authorize`; an entry with no creator is editable only by admins. Then 400 for an unknown new language. Otherwise 200, exactly the supplied fields change, the updated entry is returned, and the pair's uniqueness is not rechecked. |
| VocabEntries.DeleteVocabEntry | apps/api/src/controllers/vocabEntries.ts:189-217 | The rejections follow `Authorize`. Otherwise 204, and exactly that entry is removed. |
| Users.RegisterUser | apps/api/src/controllers/users.ts:18-48 | 409 with no change for a registered email. Otherwise 201 and one new row. The row holds the digest, not the password, and keeps the language only when it is non-empty. The token carries the new id and email. Emails stay unique. |
| Users.LoginUser | apps/api/src/controllers/users.ts:69-101 | 401 for an unknown email or a password that does not match the digest. Otherwise 200 with the user, without the password, and a token for its id and email. |
| Users.GetCurrentUser | apps/api/src/controllers/users.ts:132-157 | 401, then 404 for a missing account. Otherwise 200 with the requester's own row, without the password. |
| Users.UpdateCurrentUser | apps/api/src/controllers/users.ts:176-215 | 401, then 409 when another user has the new email; the requester's own email is no conflict. Then 404 for a missing account. Otherwise 200, exactly the supplied fields change, the password is stored as its digest, and emails stay unique. The 200 answer is the updated row without its password. |
| Users.DeleteCurrentUser | apps/api/src/controllers/users.ts:237-254 | 401, then 404. Otherwise 204, and exactly the requester's row is removed. |
| Users.IssuedTokenGrantsUserRole | apps/api/src/controllers/users.ts:37-41 | A token issued at registration or login has no role claim. `verifyToken` therefore admits its holder as that user with the role "user", never as an admin. |
| ApiResponse.SendApiResponse | apps/api/src/utils/apiResponse.ts:26-45 | The status is the one passed in, and success, message and data are carried over, data being null by default. An `errors` key appears exactly when the list is non-null and non-empty, and then it is that list. |
| ApiResponse.HandleServerError | apps/api/src/utils/apiResponse.ts:54-60 | A Zod error gives 400 "Validation error", with its issues present exactly when there are any. Anything else gives 500 with the custom message when it is non-empty, and "Internal server error" otherwise. |
| AuthMiddleware.FirstSegment | apps/api/src/middlewares/authMiddleware.ts:14 | `split(" ")[0]`: a space-free prefix of the string, followed by the end or by a space. |
| AuthMiddleware.ExtractToken | apps/api/src/middlewares/authMiddleware.ts:11-15 | No header gives no token. A header without the "Bearer " prefix is the token, verbatim. After the prefix, the token is the space-free text up to the end or to the next space. |
| AuthMiddleware.FirstSegmentOfWord | apps/api/src/middlewares/authMiddleware.ts:14 | The first segment of a space-free word, followed by nothing or by a space, is the word. |
| AuthMiddleware.BearerTokenRoundTrip | apps/api/src/middlewares/authMiddleware.ts:12-15 | "Bearer " plus a space-free token, plus anything that starts with a space, yields exactly that token. |
| AuthMiddleware.PrincipalFromPayload | apps/api/src/middlewares/authMiddleware.ts:30-51 | A payload is accepted exactly when it is an object with a string `userId`. The id is copied. The role is the payload's role when that is truthy, else "user", so the role is never falsy. |
| AuthMiddleware.VerifyToken | apps/api/src/middlewares/authMiddleware.ts:10-61 | 401 with its own message when the token is missing or empty, when verification fails, and when the payload is malformed; `next` is not called and the request is unchanged. Otherwise the request's user id and role are set and `next` is called once. |
| AuthMiddleware.RoleAllowed | apps/api/src/middlewares/authMiddleware.ts:70 | The role passes exactly when it is a non-empty string equal to one of the allowed roles. |
| AuthMiddleware.AuthorizeRoles | apps/api/src/middlewares/authMiddleware.ts:66-84 | `next` is called once for an allowed role. Otherwise the response is 403 "Forbidden: Insufficient role permissions." and `next` is not called. |
| ValidationMiddleware.NatToDecimal | apps/api/src/middlewares/validationMiddleware.ts:16 | An array index prints as a non-empty string of decimal digits, so it never contains a dot. |
| ValidationMiddleware.Split | apps/api/src/middlewares/validationMiddleware.ts:16 | Splitting on a separator always yields at least one piece. It is the reading-back partner of `join`. |
| ValidationMiddleware.SplitWithoutSeparator | apps/api/src/middlewares/validationMiddleware.ts:16 | A string without the separator splits into itself. |
| ValidationMiddleware.SplitAfterPiece | apps/api/src/middlewares/validationMiddleware.ts:16 | A separator-free piece, then the separator, then a tail: this splits into the piece followed by the split of the tail. |
| ValidationMiddleware.SplitJoin | apps/api/src/middlewares/validationMiddleware.ts:16 | Splitting a join gives back the pieces, when there is at least one piece and none contains the separator. |
| ValidationMiddleware.JoinPathReadsBack | apps/api/src/middlewares/validationMiddleware.ts:16 | The field name of a non-empty issue path whose keys have no dots splits on "." back into the path's segments. |
| ValidationMiddleware.FieldErrors | apps/api/src/middlewares/validationMiddleware.ts:15-18 | There is one `{ field, message }` per issue, in issue order, with the issue's message and its dotted path. The field reads back into the path. |
| ValidationMiddleware.ValidateData | apps/api/src/middlewares/validationMiddleware.ts:8-30 | A parsed body is stored as `cleanBody`, and `next` is called once. A Zod failure sends 400 "Validation error" with the field errors. Any other failure sends 500 "Internal Server Error". Neither failure calls `next`. |
| Common.FalsyValues | apps/api/src/middlewares/authMiddleware.ts:51 | The JSON values JavaScript treats as false are exactly null, false, 0 and the empty string. |
| Common.NonEmptyIsTruthyString | apps/api/src/controllers/categories.ts:22 | `!userId` on a `string | undefined` holds exactly when the value is missing or empty, as JavaScript truthiness says. |
| Database.ToPublicForgetsOnlyPassword | apps/api/src/controllers/users.ts:37 | Stripping the password loses only the password: two rows have the same public view exactly when they differ at most in their digests. |
| ValidationMiddleware.Join | apps/api/src/middlewares/validationMiddleware.ts:16 | The join starts with the first piece. When no piece contains the separator, the join contains it exactly when there are at least two pieces. |
| ValidationMiddleware.JoinPath | apps/api/src/middlewares/validationMiddleware.ts:16 | A one-segment path names its field by that segment alone. A longer path's field name starts with its first segment. |
| LanguageSeed.StepInsertsOrSkips | apps/api/src/db/seed/languages.seed.ts:39-54 | After one insert the code is present. A present code changes nothing and is not counted. An absent one adds exactly its row under the new id, and is counted. |
| LanguageSeed.SeedRun | apps/api/src/db/seed/languages.seed.ts:36-55 | The count never exceeds the number of seeds. |
| ButtonLoader.DotIsHalfIcon | libs/ui/src/components/atoms/Button/Loader.tsx:44-55 | Every loader dot is half the size of the icon for the same button size. |
| Button.IconOnlyIffIconAlone | libs/ui/src/components/atoms/Button/Button.tsx:28 | A button that is not loading is icon-only exactly when the leading icon is the one part it shows. |
| LanguageSeed.SeedRunPrefixStep | apps/api/src/db/seed/languages.seed.ts:37-55 | Running the seed over a prefix one element longer is one more insert-if-absent step. |
| LanguageSeed.SeedRunKeepsRows | apps/api/src/db/seed/languages.seed.ts:39-47 | Existing rows are never changed or removed. New rows appear only under the supplied ids, each stored under its own id. |
| LanguageSeed.LastIdFresh | apps/api/src/db/seed/languages.seed.ts:39-47 | The id of each insert is not yet in the table it goes into. |
| LanguageSeed.SeedRunCodes | apps/api/src/db/seed/languages.seed.ts:37-55 | After the run, the table's codes are its old codes plus every seeded code, and nothing else. |
| LanguageSeed.SeedRunCountsNewRows | apps/api/src/db/seed/languages.seed.ts:49-50 | The count is exactly the number of rows the run added. |
| LanguageSeed.SeedCodesSnoc | apps/api/src/db/seed/languages.seed.ts:37 | The codes of a list are those of all but its last entry, plus the last entry's code. |
| LanguageSeed.AbsentAfterAdding | apps/api/src/db/seed/languages.seed.ts:44-50 | One more listed code adds one absent code exactly when it was neither in the table nor listed before. |
| LanguageSeed.CountIsAbsentCodes | apps/api/src/db/seed/languages.seed.ts:36-51 | With fresh ids, the count is the number of distinct listed codes that were absent from the table before the run. |
| LanguageSeed.SeedRunAllPresent | apps/api/src/db/seed/languages.seed.ts:44-46 | When every code is already present, nothing is inserted and nothing is counted. |
| LanguageSeed.SeedRunIdempotent | apps/api/src/db/seed/languages.seed.ts:44-46 | A second run over the result of a first one changes nothing and counts nothing, whatever ids it is given. |
| LanguageSeed.SeedRunKeepsCodesUnique | apps/api/src/db/seed/languages.seed.ts:44-46 | The run keeps language codes unique. |
| LanguageSeed.SeedRunValid | apps/api/src/db/seed/languages.seed.ts:37-55 | Over a valid table, the run leaves rows under their own ids and codes unique. |
| LanguageSeed.SeedRunInsertsAllAbsent | apps/api/src/db/seed/languages.seed.ts:37-55 | When the seeded codes are pairwise distinct and none is present, every seed adds a row. |
| LanguageSeed.LanguagesToSeedDistinct | apps/api/src/db/seed/languages.seed.ts:10-31 | The built-in list has twenty languages with pairwise distinct codes. |
| LanguageSeed.SeedEmptyTableInsertsAll | apps/api/src/db/seed/languages.seed.ts:10-55 | Seeding an empty table inserts all twenty languages, and exactly their codes. |
| LanguageSeed.InsertSeeds | apps/api/src/db/seed/languages.seed.ts:36-60 | The loop leaves the table the run defines and returns the run's count. A failing insert is rethrown, keeping exactly the inserts before it. |
| LanguageSeed.SeedLanguages | apps/api/src/db/seed/languages.seed.ts:33-61 | The loop over the built-in list, with the same outcome. |
| ButtonColors.SelectState | libs/ui/src/components/atoms/Button/Frame.tsx:28 | Disabled exactly when disabled. Destructive exactly when destructive and not disabled. Default otherwise. |
| ButtonColors.Colors | libs/ui/src/components/atoms/Button/colors.ts:3-244 | Disabled cells have no hover. The foreground is "$fg-disabled" exactly in disabled cells. Tertiary and link types are transparent when disabled. `link-gray` never has a hover; `link-color` has one only when destructive. The one hover that sets a foreground is `link-color`'s destructive one. |
| ButtonColors.GrayDestructiveIsDefault | libs/ui/src/components/atoms/Button/colors.ts:40-62 | The destructive cell equals the default cell exactly for `secondary-gray`, `tertiary-gray` and `link-gray`. |
| ButtonColors.LinkBorrowsTertiaryBase | libs/ui/src/components/atoms/Button/colors.ts:179-232 | Link types reuse the tertiary tokens for their default base; `link-color`'s destructive base is its own. |
| ButtonFrame.FrameType | libs/ui/src/components/atoms/Button/Frame.tsx:25-40 | Background and border come from the selected cell's base. A press style is present exactly when the cell has a hover, and then carries the hover background. A disabled or `link-gray` frame never has one. |
| ButtonFrame.FrameSizeStyle | libs/ui/src/components/atoms/Button/Frame.tsx:41-84 | Link types get height 'auto' and no horizontal padding, whatever the size or rounding. Other types take the size's height; a rounded one is a square of that side, otherwise it takes the size's padding token. |
| ButtonFrame.HeightsIncrease | libs/ui/src/components/atoms/Button/Frame.tsx:53-66 | The heights increase: sm below lg below 2xl. Each size has its own padding token. |
| ButtonFrame.PressStyleOnlyWhenEnabled | libs/ui/src/components/atoms/Button/Frame.tsx:28-38 | No disabled frame has a press style. An enabled frame has one exactly when it is not a link, or it is a destructive `link-color`. |
| ButtonText.TextColor | libs/ui/src/components/atoms/Button/Text.tsx:17-22 | The label has the disabled foreground exactly when the button is disabled. |
| ButtonText.Typography | libs/ui/src/components/atoms/Button/Text.tsx:24-28 | sm, lg and 2xl take $label-14, $label-16 and $label-18. |
| ButtonText.TypographyPerSize | libs/ui/src/components/atoms/Button/Text.tsx:24-28 | Only the three label styles occur, and no two sizes share one. |
| ButtonIcon.IconSize | libs/ui/src/components/atoms/Button/Icon.tsx:9-20 | 24 for 2xl, 20 for every other size. |
| ButtonIcon.CloneIcon | libs/ui/src/components/atoms/Button/Icon.tsx:22-28 | The clone is the same kind of element. It sets `color` to the selected cell's foreground and `size` to the icon size, and keeps every other prop. |
| ButtonIcon.CloneIconIdempotent | libs/ui/src/components/atoms/Button/Icon.tsx:25-28 | Cloning a cloned icon changes nothing more. |
| ButtonLoader.NextActive | libs/ui/src/components/atoms/Button/Loader.tsx:76 | From any index of at least 1, the next index is in 1..3. From 1..3 it moves one place round the cycle. |
| ButtonLoader.ActiveAfter | libs/ui/src/components/atoms/Button/Loader.tsx:72-76 | After n ticks from the initial 1, the active index is n mod 3 plus 1. |
| ButtonLoader.Loader.constructor | libs/ui/src/components/atoms/Button/Loader.tsx:72 | The active index starts at 1. |
| ButtonLoader.Loader.Tick | libs/ui/src/components/atoms/Button/Loader.tsx:75-77 | One timer firing advances the index by the step function and keeps it in 1..3. |
| ButtonLoader.DotsActive | libs/ui/src/components/atoms/Button/Loader.tsx:86-88 | There are three dots, and dot i is active exactly when the index is i. |
| ButtonLoader.ExactlyOneDotActive | libs/ui/src/components/atoms/Button/Loader.tsx:86-88 | For an index in 1..3, exactly one dot is active. |
| ButtonLoader.DotSize | libs/ui/src/components/atoms/Button/Loader.tsx:44-55 | 12 for 2xl, 10 for every other size. |
| ButtonLoader.Dot | libs/ui/src/components/atoms/Button/Loader.tsx:57-65 | The dot is as high as it is wide, of the size's side, with radius half the side. It has the disabled foreground exactly when the button is disabled. |
| Button.Render | libs/ui/src/components/atoms/Button/Button.tsx:26-53 | Rounded exactly when icon-only. The frame is disabled exactly when `disabled` or `loading`. The loader shows exactly when loading and not icon-only. Loading hides all content; otherwise each given part shows. The cursor is 'default' exactly when `disabled`, unless the caller's hover style sets it. |
| Button.PartsContext | libs/ui/src/components/atoms/Button/Button.tsx:33 | The parts see the frame's effective disabled flag, `disabled || loading`. |
| Button.LoadingIconOnlyIsEmpty | libs/ui/src/components/atoms/Button/Button.tsx:39-53 | An icon-only button that is loading renders nothing inside its frame. |
| Button.LoadingKeepsPointer | libs/ui/src/components/atoms/Button/Button.tsx:33-38 | A loading button that is not disabled has a disabled frame but keeps the pointer cursor. |
| Button.PartsShareForeground | libs/ui/src/components/atoms/Button/Icon.tsx:22-27 | Label, icon and loader dots share one colour. A shown loader is drawn in the disabled foreground. |
| AuthContext.AuthProvider.constructor | apps/mobile-expo/src/app/contexts/AuthContext.tsx:16-18 | Initially signed out, with no user, still loading; the session invariant holds. |
| AuthContext.AuthProvider.CheckAuthStatus | apps/mobile-expo/src/app/contexts/AuthContext.tsx:22-30 | After the start-up check: signed out, no user, not loading. |
| AuthContext.AuthProvider.Login | apps/mobile-expo/src/app/contexts/AuthContext.tsx:33-37 | Signed in as exactly the given user. The token is not kept, and the loading flag is untouched. |
| AuthContext.AuthProvider.Logout | apps/mobile-expo/src/app/contexts/AuthContext.tsx:39-43 | Signed out with no user. The loading flag is untouched. |
| AuthContext.UseAuth | apps/mobile-expo/src/app/contexts/AuthContext.tsx:52-58 | It fails, with the message the hook throws, exactly outside a provider; otherwise it returns the provider. |

## Left out

- Database access: the ORM's queries, `.returning()` results, `orderBy` orderings and eager-loaded relations (`with: { createdBy: true }`, `currentLanguage`). Tables are maps, and listings are the matching rows without an order.
- Categories.GetCategories, Categories.GetCategoryById, VocabEntries.GetVocabEntries and VocabEntries.GetVocabEntryById: in the source their responses also carry the creator's full `users` row through the eager-loaded `createdBy` relation, password digest included. The model returns only the category or entry rows, so it does not show that these four endpoints expose password digests; only the user endpoints strip the password.
- The "0 rows returned" 404 branches after a successful lookup: sequential execution cannot reach them.
- Foreign keys: the cascades on delete and the 500 a violation would cause, such as registering with an unknown language id.
- Cryptography and parsing: bcrypt, JWT signing and verification, and the Zod schemas are parameters of the methods. What they compute, including email and uuid formats, trimming and lower-casing, is outside the model.
- The schema parse each handler repeats on `req.cleanBody`: the body given to a handler is already the parsed one.
- The handlers' 400 and 500 catch paths are not modelled. They are reached when a parameter above throws, and also when the database rejects a value. Ids are assumed to be well-formed uuids: a path id or a `user_id` or `language_id` filter that is not a uuid makes the database throw, so the handler answers 500 where the model answers 404 or 200.
- Ids are compared as exact strings, while the database compares `uuid` values and accepts other spellings: upper-case digits, braces, missing hyphens. A path id, body `language_id` or `user_id`/`language_id` filter that spells a stored id differently finds the row in the source and no row in the model. For example, creating an entry with the upper-case spelling of a stored language id gives 201 in the source and 400 in the model, and fetching a category by its upper-case id gives 200 and 404.
- Column lengths are not modelled. A name or email longer than its `varchar(255)` column, or a code longer than `varchar(10)`, makes the insert throw, and the handler answers 500 where the model answers 201.
- Handler responses are modelled by the status code and the returned rows or user; create and update return the stored row. The JSON envelope and message texts are modelled only in the middleware and in `ApiResponse`.
- Timestamps are caller-supplied integers. Logging, `async` scheduling, Express routing and the seed runner's process exit are not modelled. `seedLanguages` returns nothing: the count in `LanguageSeed.SeedOutcome.Completed` stands for the total it writes to the log.
- The `iat` claim that signing adds to a token is not modelled.
- ButtonFrame: the fixed styles and the `fullWidth` variant are not modelled, nor the order in which variants merge.
- Button: the `{...rest}` props forwarded to the frame are not modelled.
- ButtonLoader: the scale animation, its timings, the 1.4 factor and the interval's period are not modelled. The colour token is kept unresolved.
- AuthContext.AuthProvider.CheckAuthStatus: the one-second delay and the React rendering of the provider are not modelled.
- LanguageSeed.SeedLanguages: an error is modelled only as the index of the insert that throws. The caller's handling of the rethrow is not modelled.

## Findings

| source | as written | input that shows it | evidently intended | confidence | as-written member | corrected member |
|---|---|---|---|---|---|---|
| apps/api/src/controllers/categories.ts:219 | The term meant to exclude the renamed category is always `undefined`, because `eq(...)` returns a truthy object. The conflict query matches every category of the requester with the new name, the renamed one included. | The owner renames category "c1", named "verbs", to "verbs": the answer is 409. A related consequence, which the corrected member keeps because it matches on the requester's id as the source does: an admin renaming user "u1"'s category "c2" to "verbs", while "u1" already has "c1" named "verbs", gets 200. "u1" then has two categories named "verbs" (`Categories.AdminRenameDuplicateScenario`). | A conflict only with another category (the 409 message says "another category"), so saving the current name succeeds. | high; not executed | Categories.UpdateCategory | Categories.UpdateCategoryExcludingSelf |
