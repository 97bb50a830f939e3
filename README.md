# natours-backend: account security and request validation, in Dafny

This project models the account-security core of the natours tour-booking API
and the zod schemas that validate its request bodies, and proves properties of
the model.

- **User model** (`UserModel`). A user record has a role, a stored password and
  a password-change stamp. It also holds the SHA-256 digest of a reset token with
  its expiry, and an `active` flag. The model covers:
  - the schema validators;
  - the two pre-save hooks: hash a modified password, and stamp the change one
    second in the past;
  - the pre-find hook that hides deactivated users;
  - `correctPassword`, `changedPasswordAfter` and `createPasswordResetToken`.

  The collection is a class over a sequence of records in natural order. It
  keeps unique ids and e-mails and never stores a plaintext password. A document
  is a class whose `save` runs validation, then the hooks, then the write.
- **Authentication gate** (`AuthMiddleware`). The token is taken from the `jwt`
  cookie or from a `Bearer` header, then verified. The user is looked up through
  the pre-find hook, and a token older than the last password change is refused.
  This is written once as a function and once as the mutating middleware method.
- **Role guard** (`RestrictMiddleware`): `restrict(...roles)`.
- **Handlers** (`AuthController`):
  - `signup`, `login`, `forgotPassword`, `resetPassword` and `updatePassword`, as
    methods over the collection;
  - each is proved equal to a transition function, whose properties are lemmas:
    - a reset token works once and only within ten minutes;
    - a password change revokes older sessions;
    - login accepts only the stored password.
- **Errors** (`AppErrors`): `AppError` derives `status` from the first digit
  of the decimal status code. `DBError` is always a 500.
- **Validation** (`Zod`, `UserSchemas`, `TourSchemas`, `ReviewSchemas`):
  - a small model of the zod semantics the schemas use: checks in order,
    transforms, dirty versus aborted parses, defaults, optional, object
    stripping, omit, pick, extend, partial, refine, union and instanceof;
  - the sign-up, login, reset, update-password, tour and review schemas, with
    lemmas stating exactly which bodies each accepts and what it outputs.
- **Helpers**: `Strings` (trim, ASCII lower-casing, split and join) and `Hex`
  (hex encoding of the random reset token, with its decoder).

Outside inputs are parameters:
- the clock: `now` in milliseconds;
- `crypto.randomBytes`: `random`;
- `jwt.verify`: a `verify` function;
- whether the e-mail was delivered: `emailDelivered`;
- the e-mail format test of zod: `isEmail`;
- `NODE_ENV`: `nodeEnv`.

Hashing is symbolic. `Bcrypt(p)` and `Sha256Hex(s)` are free constructors, so
the model assumes these functions never collide.

A token is stale only if its issue second is before the truncated change
stamp. The change is stamped at `now - 1000` ms and truncated to whole seconds,
so a token issued in the second before the change still passes (see
`UserModel.StaleWindow`).

## Model

| member | source | states |
|---|---|---|
| AppErrors.Pow10 | src/utils/AppError.ts:13 | a power of ten is at least 1 |
| AppErrors.Digits | src/utils/AppError.ts:13 | the decimal rendering of a natural number is never empty |
| AppErrors.LeadingDigit | src/utils/AppError.ts:13 | the leading digit is below 10, and nonzero for a positive number |
| AppErrors.DigitsStartWithLeadingDigit | src/utils/AppError.ts:13 | the rendering's first character is the leading digit |
| AppErrors.LeadingDigitBounds | src/utils/AppError.ts:13 | `n` lies between `d·10^k` and `(d+1)·10^k`, where `d` is its leading digit and `k` its magnitude |
| AppErrors.LeadingDigitOfInterval | src/utils/AppError.ts:13 | any `n` in `[d·10^k, (d+1)·10^k)` has leading digit `d` |
| AppErrors.DecimalStartsWithFour | src/utils/AppError.ts:13 | `` `${statusCode}`.startsWith("4") `` holds exactly for the numbers whose decimal leads with 4 (negatives never) |
| AppErrors.StatusOf | src/utils/AppError.ts:13 | status is "fail" exactly when the code leads with 4, and "error" otherwise |
| AppErrors.NewAppError | src/utils/AppError.ts:9-22 | keeps message, code and error; always operational; status follows the first-digit rule |
| AppErrors.NewDBError | src/utils/AppError.ts:25-32 | carries the database error's message, code 500, status "error", and the original error |
| AppErrors.ClientErrorsFail | src/utils/AppError.ts:13 | every 4xx code gets status "fail" |
| AppErrors.NotFourHundreds | src/utils/AppError.ts:13 | every code from 500 to 3999 gets status "error" |
| AppErrors.LeadingFourOnly | src/utils/AppError.ts:13 | 4, 40–49 and 4000–4999 also "fail"; every negative code gets "error" |
| Strings.TrimStart | src/schema/userSchema.ts:9 | trimming never lengthens the string |
| Strings.TrimEnd | src/schema/userSchema.ts:9 | trimming never lengthens the string |
| Strings.Trim | src/schema/userSchema.ts:9 | trimming never lengthens the string |
| Strings.TrimStartSuffix | src/schema/userSchema.ts:9 | TrimStart yields a suffix; what it drops is whitespace; its first character is not whitespace |
| Strings.TrimEndPrefix | src/schema/userSchema.ts:9 | TrimEnd yields a prefix; what it drops is whitespace; its last character is not whitespace |
| Strings.TrimSlice | src/schema/userSchema.ts:9 | Trim is a slice of the input, and only whitespace is cut on either side |
| Strings.TrimEnds | src/schema/userSchema.ts:9 | a trimmed string neither starts nor ends with whitespace |
| Strings.TrimIdempotent | src/schema/userSchema.ts:9 | trimming twice equals trimming once |
| Strings.LowerChar | src/schema/userSchema.ts:18 | an ASCII capital becomes its lower case; every other character is unchanged |
| Strings.ToLower | src/schema/userSchema.ts:18 | same length, no capitals left, other characters unchanged |
| Strings.IndexOf | src/middlewares/authMiddleware.ts:31 | the position of the first occurrence of the character |
| Strings.Split | src/middlewares/authMiddleware.ts:31 | `split` yields at least one piece, and no piece holds the separator |
| Strings.JoinSplit | src/middlewares/authMiddleware.ts:31 | joining the pieces of a split gives back the string |
| Strings.SplitJoin | src/middlewares/authMiddleware.ts:31 | splitting a join of separator-free pieces gives back the pieces |
| Hex.DigitChar | src/models/userModel.ts:111 | digits 0–15 become lower-case hex characters |
| Hex.DigitValue | src/models/userModel.ts:111 | inverse of DigitChar on hex characters, and -1 elsewhere |
| Hex.DigitValueOfDigitChar | src/models/userModel.ts:111 | DigitValue undoes DigitChar |
| Hex.Encode | src/models/userModel.ts:111 | `toString("hex")`: two hex characters per byte |
| Hex.EncodeByte | src/models/userModel.ts:111 | one byte is two hex characters |
| Hex.DecodeByte | src/models/userModel.ts:111 | the two characters read back as the byte (high nibble first) |
| Hex.Decode | src/models/userModel.ts:111 | a successful decode has half as many bytes as characters |
| Hex.DecodeEncode | src/models/userModel.ts:111 | decoding the encoding gives back the bytes |
| Hex.EncodeInjective | src/models/userModel.ts:111 | distinct random bytes give distinct reset tokens |
| UserModel.CompareAcceptsOnlyTheHashedPassword | src/models/userModel.ts:91-96 | `correctPassword` accepts a candidate exactly when the stored digest is that candidate's, and never accepts against a plaintext |
| UserModel.TruncatedSeconds | src/models/userModel.ts:100-103 | `parseInt(String(ms/1000))` truncates toward zero, including for negative times |
| UserModel.ValidationErrors | src/models/userModel.ts:16-61 | no errors exactly when name and email are non-empty, the role is one of the four, the password is present with at least 8 characters (a stored digest counts as its 60-character hash), and a confirmation is present |
| UserModel.AfterSaveHooks | src/models/userModel.ts:64-79 | a modified password is replaced by its digest and the confirmation dropped; an existing document's change is stamped at `now - 1000`; nothing else changes |
| UserModel.StaleWindow | src/models/userModel.ts:98-108 | after a change saved at `now`, a token is stale exactly when `iat < now/1000 - 1` |
| UserModel.FreshTokenNotStale | src/models/userModel.ts:98-108 | a token issued at or after the save is never stale |
| UserModel.FirstMatch | src/models/userModel.ts:82-87 | the first record in natural order that matches, or none when no record matches |
| UserModel.UserRecord.ChangedPasswordAfter | src/models/userModel.ts:98-108 | `changedPasswordAfter`: true exactly when a change stamp exists and its truncated seconds exceed the token's timestamp; its consequences are StaleWindow, FreshTokenNotStale and MissingIatIsZero |
| UserModel.BcryptCompare | src/models/userModel.ts:91-96 | `bcrypt.compare` on symbolic digests; CompareAcceptsOnlyTheHashedPassword states that it accepts exactly the digest's own password |
| UserModel.FindOne | src/controllers/authController.ts:87 | `findOne` without the hook: the first record in natural order matching every condition, as FirstMatch states |
| UserModel.Find | src/models/userModel.ts:82-87 | a find-family query with the hook's `active: { $ne: false }` clause added; FindHidesOnlyDeactivated and FindByUniqueId state what it returns |
| UserModel.FindHidesOnlyDeactivated | src/models/userModel.ts:82-87 | a query never returns a user whose `active` is false, and finds nothing exactly when every match is deactivated |
| UserModel.FindQuery.constructor | src/models/userModel.ts:82-87 | a query holds its filter |
| UserModel.FindQuery.PreFind | src/models/userModel.ts:82-87 | the hook appends `active: { $ne: false }` to the filter |
| UserModel.FindQuery.Exec | src/models/userModel.ts:82-87 | the first match of the filter, which is a stored record satisfying it |
| UserModel.ReplaceById | src/models/userModel.ts:16-61 | the write of a saved document replaces exactly the records with its id |
| UserModel.ReplaceTwice | src/models/userModel.ts:16-61 | of two writes under one id, the second wins |
| UserModel.ReplaceStored | src/models/userModel.ts:22-26 | with unique ids, a write by id updates the one position holding that id |
| UserModel.ReplaceKeepsInvariant | src/models/userModel.ts:22-26 | a write that keeps e-mails unique and stores no plaintext keeps the collection invariant |
| UserModel.AppendKeepsInvariant | src/models/userModel.ts:22-26 | an insert with a fresh id and e-mail keeps the invariant |
| UserModel.StoredRecordWritable | src/models/userModel.ts:22-26 | a stored record written back with its own e-mail hits no unique index |
| UserModel.WriteBackSucceeds | src/controllers/authController.ts:99-100 | saving an unmodified stored user without validation succeeds, writes it back in place, and keeps the invariant |
| UserModel.FindByUniqueId | src/middlewares/authMiddleware.ts:52 | `findById` returns the stored user with that id unless it is deactivated |
| UserModel.UserCollection.constructor | src/models/userModel.ts:123 | an empty collection satisfies the invariant |
| UserModel.UserCollection.Insert | src/models/userModel.ts:22-26 | the insert succeeds exactly when id and e-mail are fresh and then appends; otherwise a duplicate-key error and no change |
| UserModel.UserCollection.Update | src/models/userModel.ts:22-26 | the update fails when the id is gone or the e-mail belongs to another user; otherwise it replaces by id |
| UserModel.SaveOutcome | src/models/userModel.ts:16-79 | `save()` rejects with the validator errors first, then with the write error; on success it yields the record after the hooks |
| UserModel.UserDocument.Create | src/controllers/authController.ts:50-55 | `User.create` builds a new document with role "user", active true and a plaintext password marked modified |
| UserModel.UserDocument.Hydrate | src/middlewares/authMiddleware.ts:52 | a queried document is not new and not modified |
| UserModel.UserDocument.AssignPassword | src/controllers/authController.ts:159 | assigning the password marks it modified and changes nothing else |
| UserModel.UserDocument.HashPasswordHook | src/models/userModel.ts:64-72 | hashes the modified password and clears the confirmation; no-op otherwise |
| UserModel.UserDocument.StampPasswordChangedHook | src/models/userModel.ts:74-79 | stamps `now - 1000` only on an existing document with a modified password |
| UserModel.UserDocument.Save | src/models/userModel.ts:64-79 | the outcome equals SaveOutcome; on success the collection is AfterSave and the document is saved and clean; on failure the collection is unchanged, the flags are kept, and the document holds its old record after a validation error and the hooked record after a write error |
| UserModel.UserDocument.CreatePasswordResetToken | src/models/userModel.ts:110-121 | returns 64 hex characters of the random bytes; stores only their SHA-256 and an expiry 10 minutes after `now` |
| UserModel.ResetTokenWindow | src/models/userModel.ts:110-121 | the stored fields match a presented token exactly when it is that token and the time is before the expiry |
| AuthMiddleware.BearerToken | src/middlewares/authMiddleware.ts:31 | `split(" ")[1]` of a Bearer header: the text after the prefix up to the next space |
| AuthMiddleware.BearerTokenOfWellFormedHeader | src/middlewares/authMiddleware.ts:31 | `"Bearer " + t` yields `t` for any `t` without spaces |
| AuthMiddleware.EmptyBearerToken | src/middlewares/authMiddleware.ts:31-40 | the token is empty exactly when nothing or a space follows the prefix |
| AuthMiddleware.ExtractToken | src/middlewares/authMiddleware.ts:17-40 | a non-empty cookie wins; otherwise the header needs the Bearer prefix; an empty token is refused as not logged in |
| AuthMiddleware.Authenticate | src/middlewares/authMiddleware.ts:10-78 | passes only a verified token whose visible user exists and has not changed password since, attaching that id and user |
| AuthMiddleware.FirstFailureDecides | src/middlewares/authMiddleware.ts:17-47 | failed extraction ignores verifier and store; a failed verification ignores the store |
| AuthMiddleware.LookupAndStaleness | src/middlewares/authMiddleware.ts:52-71 | a missing or deactivated user is refused as gone; a found user who changed password after `iat` is refused with "User recently changed password! Please log in again." (UNAUTHENTICATED); any other found user is attached with the token's id |
| AuthMiddleware.MissingIatIsZero | src/middlewares/authMiddleware.ts:64 | without `iat`, the token is refused exactly when the change stamp is at least 1000 ms |
| AuthMiddleware.AuthenticatedRequest.constructor | src/middlewares/authMiddleware.ts:10-14 | a fresh request carries no user id and no user |
| AuthMiddleware.AuthenticateJwt | src/middlewares/authMiddleware.ts:10-78 | calls `next` with exactly the gate's failure and leaves the request unchanged, or writes exactly `userId` and `user` |
| RestrictMiddleware.Includes | src/controllers/restrictMiddleware.ts:8 | `roles.includes(x)` is membership |
| RestrictMiddleware.RoleOf | src/controllers/restrictMiddleware.ts:8 | `req.user?.role ?? ""`; MissingUserIsEmptyRole and GuardBehindGate state its cases |
| RestrictMiddleware.Restrict | src/controllers/restrictMiddleware.ts:6-19 | passes the request unchanged exactly when the user's role (or "") is listed; otherwise the permission error with UNAUTHORIZED |
| RestrictMiddleware.EmptyRolesRejectAll | src/controllers/restrictMiddleware.ts:6-19 | `restrict()` with no roles refuses everyone |
| RestrictMiddleware.MissingUserIsEmptyRole | src/controllers/restrictMiddleware.ts:8 | without a user, the guard passes only when "" is listed |
| RestrictMiddleware.GuardBehindGate | src/controllers/restrictMiddleware.ts:6-19 | behind the gate, the guard passes exactly when the user the token names holds a listed role |
| AuthController.TokenResponse | src/controllers/authController.ts:16-43 | the same session token in the `jwt` cookie and the body; httpOnly; secure only in production; the user without password |
| AuthController.CreateSendToken | src/controllers/authController.ts:16-43 | answers TokenResponse and blanks the document's password, nothing else |
| AuthController.SignupSpec | src/controllers/authController.ts:45-58 | the signup transition: `User.create` from the four body fields, then the CREATED token response; SignupStoresDefaults states its outcomes |
| AuthController.LoginSpec | src/controllers/authController.ts:60-79 | the login transition: the first visible user with the e-mail, the password compared with its digest; LoginAcceptsOnlyTheStoredPassword states its outcomes |
| AuthController.ForgotPasswordSpec | src/controllers/authController.ts:81-134 | the forgot-password transition: NOT_FOUND, or the token issued and mailed, or INTERNAL_SERVER_ERROR with the reset fields cleared; ForgotPasswordOutcomes states its outcomes |
| AuthController.ResetPasswordSpec | src/controllers/authController.ts:136-166 | the reset transition: the holder of the digest with an unexpired token gets the new password and loses both reset fields, or BAD_REQUEST; ResetTokenSingleUse and IssuedTokenOpensReset state its outcomes |
| AuthController.AsWrittenCheck | src/controllers/authController.ts:181 | the unawaited `correctPassword` on the new password: a pending Promise, always truthy |
| AuthController.UpdatePasswordSpec | src/controllers/authController.ts:168-192 | the as-written update transition; AsWrittenIgnoresCurrentPassword and UpdateStoresNewPassword state its outcomes |
| AuthController.UpdatePasswordCheckedSpec | src/controllers/authController.ts:181-185 | the update transition with the awaited comparison of `currentPassword`; CheckedUpdateNeedsCurrentPassword states its outcomes |
| AuthController.Signup | src/controllers/authController.ts:45-58 | the method's answer and collection are the signup transition |
| AuthController.SignupStoresDefaults | src/controllers/authController.ts:45-58 | accepted exactly when the validators pass and id and e-mail are fresh; appends the user with defaults, the digest and no confirmation; answers 201; a failure changes nothing |
| AuthController.Login | src/controllers/authController.ts:60-79 | the method's answer is the login transition; nothing is written |
| AuthController.LoginAcceptsOnlyTheStoredPassword | src/controllers/authController.ts:60-79 | succeeds exactly for a visible user with that e-mail holding the password's digest, with that user's token; any failure is the same UNAUTHENTICATED error |
| AuthController.IssueResetToken | src/controllers/authController.ts:99-100 | the user gets a fresh reset token; the unawaited save writes it back in place and cannot fail |
| AuthController.ClearAfterIssue | src/controllers/authController.ts:123-125 | after the issue, the save that clears the reset fields succeeds and writes the cleared user in the original's place |
| AuthController.ClearResetToken | src/controllers/authController.ts:123-125 | the rollback leaves the collection and the document with the user's reset fields cleared, the document saved and clean |
| AuthController.ForgotPassword | src/controllers/authController.ts:81-134 | the method's answer, collection and mailed token are the forgot-password transition |
| AuthController.ReplaceWithStored | src/controllers/authController.ts:123-125 | writing a stored record back unchanged leaves the collection as it was |
| AuthController.ForgotPasswordOutcomes | src/controllers/authController.ts:81-134 | unknown e-mail: 404, no change. Delivered: 64-character token mailed, its digest and a 10-minute expiry stored. Not delivered: 500 and both fields cleared |
| AuthController.ResetPassword | src/controllers/authController.ts:136-166 | the method's answer and collection are the reset transition |
| AuthController.ResetQueryFindsHolder | src/controllers/authController.ts:148-151 | once a user holds a token's digest, the reset query finds them strictly before the expiry and nobody afterwards |
| AuthController.IssuedTokenOpensReset | src/controllers/authController.ts:81-166 | a mailed token opens the reset for its user within 10 minutes; afterwards the reset answers 400 and changes nothing |
| AuthController.ResetTokenSingleUse | src/controllers/authController.ts:159-163 | after a successful reset, the same token finds nobody and a second reset answers 400 and changes nothing |
| AuthController.NoHolderFindsNothing | src/controllers/authController.ts:148-151 | when nobody holds the digest, the reset query finds nobody |
| AuthController.PasswordSaveRevokesOlderTokens | src/middlewares/authMiddleware.ts:64-71 | after a password save at `now`, the gate refuses a token for that user exactly when `iat < now/1000 - 1`, and otherwise attaches the saved user |
| AuthController.ResetEndsOlderSessions | src/controllers/authController.ts:136-166 | a reset ends older sessions, and the gate accepts the token it answers with |
| AuthController.UpdatePassword | src/controllers/authController.ts:168-192 | the method's answer and collection are the as-written update transition |
| AuthController.UpdatePasswordChecked | src/controllers/authController.ts:181-185 | the same handler with the current password compared and awaited |
| AuthController.AsWrittenIgnoresCurrentPassword | src/controllers/authController.ts:181 | as written, the outcome does not depend on the current password, and "Your current password is wrong" is never answered |
| AuthController.WrongCurrentPasswordAccepted | src/controllers/authController.ts:181 | a concrete wrong current password is accepted by the as-written handler and refused by the intended one |
| AuthController.CheckedUpdateNeedsCurrentPassword | src/controllers/authController.ts:168-192 | intended handler: unknown id gives 404; wrong current password gives 400 with no change; success needs the current password |
| AuthController.UpdateStoresNewPassword | src/controllers/authController.ts:187-191 | a successful update stores the new digest, drops the confirmation, stamps `now - 1000`, and changes nothing else |
| Zod.Parse | src/schema/userSchema.ts:3-80 | zod's parse of a value against a schema, with status valid, dirty or aborted; the Zod lemmas below state its properties |
| Zod.SafeParse | src/schema/userSchema.ts:57 | success exactly when the parse is valid |
| Zod.Partial | src/schema/tourSchema.ts:57 | `.partial()` makes every field optional and keeps the keys in order |
| Zod.ValidIffNoIssues | src/schema/userSchema.ts:3-80 | a parse is valid exactly when it reports no issue |
| Zod.IssuesUnderPath | src/schema/userSchema.ts:44-48 | every issue lies at or below the path being parsed |
| Zod.FieldsValidIffEachValid | src/schema/userSchema.ts:3-42 | an object is valid exactly when every field is |
| Zod.FieldsAbortIffOneAborts | src/schema/userSchema.ts:3-42 | an object aborts exactly when some field aborts |
| Zod.FieldsKeys | src/schema/userSchema.ts:3-42 | unless the object aborts, the output is an object, and every key it holds is a key of the shape |
| Zod.FieldsValueAt | src/schema/userSchema.ts:3-42 | under a field's key the output holds that field's parsed value |
| Zod.ObjectField | src/schema/userSchema.ts:3-42 | unless the object aborts, no field aborted, and a field's key reads its parsed value |
| Zod.ObjectStrips | src/schema/userSchema.ts:3-42 | the output holds only keys of the shape |
| Zod.FieldIssuesIncluded | src/schema/reviewSchema.ts:4-19 | every issue of a field is an issue of its object |
| Zod.ObjectMissingOptional | src/schema/tourSchema.ts:54-58 | an optional field missing from the input stays missing in the output |
| Zod.OmitDropsKeys | src/schema/userSchema.ts:50-55 | `.omit` leaves no field with an omitted key |
| Zod.PartialAcceptsEmpty | src/schema/tourSchema.ts:54-58 | a partial object accepts `{}` and outputs `{}` |
| Zod.RefineKeepsValue | src/schema/userSchema.ts:57 | `.refine` aborts only when the inner parse does; otherwise it keeps the inner output and every inner issue ahead of its own, and reports nothing exactly when the inner parse reports nothing and the check holds |
| Zod.UnionIssues | src/schema/reviewSchema.ts:12-14 | `a.or(b)` reports no issue exactly when one option reports none, aborts exactly when both abort, and otherwise returns one option's result unchanged |
| Zod.ArrayValid | src/schema/tourSchema.ts:38 | `z.array(e)` accepts exactly the arrays whose every item `e` accepts |
| UserSchemas.UserShapeFields | src/schema/userSchema.ts:50-55 | omitting the four server-set keys leaves name, email, photo, role, password, passwordConfirm, active, in order |
| UserSchemas.LoginShapeFields | src/schema/userSchema.ts:59-62 | `.pick` gives email and password |
| UserSchemas.ResetShapeFields | src/schema/userSchema.ts:64-67 | `.pick` gives password and passwordConfirm |
| UserSchemas.UpdateShapeFields | src/schema/userSchema.ts:69-80 | the pick extended with currentPassword |
| UserSchemas.NameRule | src/schema/userSchema.ts:5-9 | any string, output trimmed; anything else aborts, and a missing name gets the required message |
| UserSchemas.EmailRule | src/schema/userSchema.ts:11-19 | the raw string must pass the e-mail test; the output is lower-cased, then trimmed |
| UserSchemas.PasswordRule | src/schema/userSchema.ts:27-37 | a string of at least 8 characters is valid; a shorter one is dirty with a too-small issue |
| UserSchemas.PhotoRule | src/schema/userSchema.ts:21 | optional string, kept as given |
| UserSchemas.RoleRule | src/schema/userSchema.ts:22-25 | missing becomes "user"; given must be one of the four roles |
| UserSchemas.ActiveRule | src/schema/userSchema.ts:41 | missing becomes true; given must be a boolean |
| UserSchemas.UserShapeDistinct | src/schema/userSchema.ts:50-55 | the user shape's keys are distinct |
| UserSchemas.UserProfileFieldRules | src/schema/userSchema.ts:5-25 | each profile field of a body, read from the body, against its rule |
| UserSchemas.UserAccountFieldRules | src/schema/userSchema.ts:27-41 | each account field of a body, read from the body, against its rule |
| UserSchemas.UserObjectValid | src/schema/userSchema.ts:50-55 | the user object is valid exactly when every field is |
| UserSchemas.UserObjectStrips | src/schema/userSchema.ts:50-55 | the output keeps only the seven user keys |
| UserSchemas.UserObjectProfile | src/schema/userSchema.ts:5-25 | the output holds the trimmed name, the normalised e-mail and the photo as given |
| UserSchemas.UserObjectAccount | src/schema/userSchema.ts:22-41 | the output holds the role with its default, both passwords as given, and the active flag with its default |
| UserSchemas.PasswordsMatch | src/schema/userSchema.ts:44 | `val.password === val.passwordConfirm`; CreateUserAccepts and MismatchIsTheOnlyIssue state its effect |
| UserSchemas.CreateUserAccepts | src/schema/userSchema.ts:57 | accepted exactly when every field is valid and the two passwords are equal |
| UserSchemas.CreateUserOutput | src/schema/userSchema.ts:57 | an accepted body is normalised: unknown keys dropped, name and e-mail normalised, role and active defaulted |
| UserSchemas.MismatchIsTheOnlyIssue | src/schema/userSchema.ts:44-48 | with valid fields and different passwords, the only issue is the mismatch at `passwordConfirm` |
| UserSchemas.MismatchReportedAfterFieldIssues | src/schema/userSchema.ts:44-57 | the comparison runs even after dirty field checks, and its issue comes last |
| UserSchemas.MissingNameReportedFirst | src/schema/userSchema.ts:5-9 | a missing name aborts the body, and its required message comes first |
| UserSchemas.LoginAccepts | src/schema/userSchema.ts:59-62 | accepted exactly with a valid e-mail and a password of at least 8 characters |
| UserSchemas.LoginOutput | src/schema/userSchema.ts:59-62 | the output keeps only the normalised e-mail and the password |
| UserSchemas.PasswordPairRule | src/schema/userSchema.ts:64-67 | the pair is valid exactly when both are strings of at least 8 characters, and comes out as given |
| UserSchemas.ResetPasswordAccepts | src/schema/userSchema.ts:64-67 | accepted exactly when both are valid and equal |
| UserSchemas.UpdatePasswordObjectRule | src/schema/userSchema.ts:69-79 | valid exactly when all three passwords are strings of at least 8 characters |
| UserSchemas.UpdatePasswordObjectOutput | src/schema/userSchema.ts:69-79 | both new passwords come out as given |
| UserSchemas.UpdatePasswordAccepts | src/schema/userSchema.ts:69-80 | the reset conditions plus a valid current password |
| TourSchemas.TourNameRule | src/schema/tourSchema.ts:4-8 | the name is trimmed first; the 10–40 limits apply to the trimmed name |
| TourSchemas.RatingsAverageRule | src/schema/tourSchema.ts:20-25 | missing becomes 4.5; given must be in [1, 5] |
| TourSchemas.DifficultyRule | src/schema/tourSchema.ts:16-18 | the difficulty must be "easy", "medium" or "difficult"; a missing one gets "Difficulty is either: easy, medium, difficult", another type the default message, another string an invalid-enum issue |
| TourSchemas.ImagesRule | src/schema/tourSchema.ts:38 | `images` is valid exactly when missing or an array of strings |
| TourSchemas.StartDatesRule | src/schema/tourSchema.ts:42 | `startDates` is valid exactly when missing or an array of strings and `Date`s |
| TourSchemas.TourHeadFieldRules | src/schema/tourSchema.ts:4-18 | name (trimmed length 10–40), slug (optional string), duration and group size (numbers) and difficulty (one of three), each as an iff |
| TourSchemas.TourPriceFieldRules | src/schema/tourSchema.ts:20-30 | ratingsAverage (missing or in [1, 5]), ratingsQuantity (missing or a number), price (a number) and priceDiscount (missing or a number), each as an iff |
| TourSchemas.TourTextFieldRules | src/schema/tourSchema.ts:32-36 | summary and imageCover must be strings; description is missing or a string, each as an iff |
| TourSchemas.TourExtraFieldRules | src/schema/tourSchema.ts:38-43 | images, createdAt (a `Date`), startDates and secretTour (a boolean), each missing or of its type, as iffs |
| TourSchemas.TourObjectEachValid | src/schema/tourSchema.ts:3-44 | the tour object is valid exactly when all sixteen fields are |
| TourSchemas.TourObjectValid | src/schema/tourSchema.ts:3-44 | the tour object is valid exactly when TourFieldsValid holds, field by field |
| TourSchemas.MissingRequiredTourField | src/schema/tourSchema.ts:4-36 | leaving out name, duration, maxGroupSize, difficulty, price, summary or imageCover aborts the body, and its issues include that field's own `required_error` message, under the full, refined and intended schemas |
| TourSchemas.PriceKeysUnique | src/schema/tourSchema.ts:29-30 | `price` and `priceDiscount` each name one field |
| TourSchemas.DefaultedKeysUnique | src/schema/tourSchema.ts:20-43 | the defaulted keys each name one field |
| TourSchemas.UpdateShapeOptional | src/schema/tourSchema.ts:54-58 | every update field is optional, and none is `createdAt` |
| TourSchemas.TourPrices | src/schema/tourSchema.ts:29-30 | the prices come out as given |
| TourSchemas.PriceAboveDiscount | src/schema/tourSchema.ts:46-50 | `val.price > val.priceDiscount`, false when either is missing; TourWithoutDiscountRejected and EmptyUpdateRejected state its effect |
| TourSchemas.TourWithoutDiscountRejected | src/schema/tourSchema.ts:46-52 | a tour without `priceDiscount` is never accepted; when its fields are otherwise valid, the discount message is its only issue |
| TourSchemas.TourAccepts | src/schema/tourSchema.ts:46-52 | as written, a tour is accepted exactly when TourFieldsValid holds and a discount below the price is given |
| TourSchemas.UpdateWithoutBothPricesRejected | src/schema/tourSchema.ts:46-58 | an update missing either price is never accepted |
| TourSchemas.EmptyUpdateRejected | src/schema/tourSchema.ts:46-58 | `{}` is refused with the discount message |
| TourSchemas.IntendedTourAccepts | src/schema/tourSchema.ts:46-52 | intended rule: accepted exactly when TourFieldsValid holds and the discount is absent or below the price |
| TourSchemas.IntendedUpdateWithoutDiscount | src/schema/tourSchema.ts:54-58 | intended rule: an update without a discount is accepted exactly when its fields are valid |
| TourSchemas.IntendedEmptyUpdateAccepted | src/schema/tourSchema.ts:54-58 | intended rule: `{}` is accepted unchanged |
| TourSchemas.TourDefaults | src/schema/tourSchema.ts:20-43 | a full tour gets ratingsAverage 4.5, ratingsQuantity 0, secretTour false when missing |
| TourSchemas.UpdateAddsNoDefaults | src/schema/tourSchema.ts:54-58 | an update fills in no defaults and never carries `createdAt` |
| ReviewSchemas.CreateReviewShapeFields | src/schema/reviewSchema.ts:21-23 | omitting `createdAt` leaves review, rating, tour, user |
| ReviewSchemas.RatingRule | src/schema/reviewSchema.ts:6-9 | a number in [1, 5], each bound with its own message |
| ReviewSchemas.TourRefRule | src/schema/reviewSchema.ts:12-14 | a string or an instance of `mongoose.Schema.ObjectId`; anything else, a missing tour included, gives one invalid-union issue |
| ReviewSchemas.UserRefRule | src/schema/reviewSchema.ts:15-18 | optional; when given, a string or an instance of `mongoose.Schema.ObjectId` |
| ReviewSchemas.CreateReviewFieldRules | src/schema/reviewSchema.ts:4-19 | each field of the create body against its rule |
| ReviewSchemas.CreateReviewAccepts | src/schema/reviewSchema.ts:21-23 | accepted exactly with a string review, a rating in [1, 5], a tour reference, and an optional user reference |
| ReviewSchemas.CreatedAtOnlyInFullSchema | src/schema/reviewSchema.ts:11-23 | an accepted create body never carries `createdAt`; the full schema refuses a `createdAt` string, which is all a JSON body can carry |
| ReviewSchemas.MissingTourIsUnionIssue | src/schema/reviewSchema.ts:12-14 | a body without a tour fails with the invalid-union issue under `tour` |

## Left out

- AuthController.ForgotPassword: a non-string `email` is not modelled. The route mounts this handler without body validation, so a JSON value such as `{"$gt": ""}` reaches `findOne` as a query operator and can select a visible user. The model takes `email` as a string and compares it for equality.
- AuthMiddleware.Authenticate: a verified payload without `id` is not modelled; `Claims.id` is a string. In the source `findById(undefined)` finds nobody, so such a token gets the user-gone error.
- UserModel.BcryptCompare: a stored user without a password is treated as a mismatch. `bcrypt.compare` would throw instead. No handler stores such a user.
- The e-mail format test of zod is not modelled. `isEmail` is a parameter that stands for it.
- Strings.ToLower: lower-cases ASCII letters only. JavaScript's `toLowerCase` also folds non-ASCII letters.
- Strings.Trim: the whitespace set is a fixed list of code points. String lengths count `char`s, not UTF-16 code units.
- UserModel.TruncatedSeconds: invalid `Date`s (beyond ±8.64e15 ms) and floating-point rounding are not modelled.
- `z.instanceof(mongoose.Schema.ObjectId)` is modelled as a test on a class name. Subclassing is not modelled.
- ReviewSchemas.TourRefRule, ReviewSchemas.MissingTourIsUnionIssue: the model assumes the issue of `z.instanceof` is fatal, so the instance option aborts and a missing tour gets one invalid-union issue. Recent zod 3 releases behave this way; older 3.x releases report it as non-fatal, and the union would then return the dirty instance issue alone. Which bodies are accepted is the same either way. The class name in "Input not instance of ObjectId" depends on the Mongoose version.
- Query projections are not modelled: `select: false` on `password` and `active`, and `.select("+password -__v")`. A document carries the whole record.
- UserModel.CompareAcceptsOnlyTheHashedPassword: bcrypt and SHA-256 are free constructors, so hashing is injective by assumption. bcrypt's salt, cost factor and 72-byte input limit are not modelled.
- JWTs are not modelled as strings. Signing, the secret and `JWT_EXPIRES_IN` are abstracted into `Claims` and the `verify` parameter.
- AuthMiddleware.ExtractToken: the model assumes a cookie parser fills `req.cookies`. src/app.ts:13 installs only `express.json()`, so in the app as wired `req.cookies.jwt` throws before the header is read, and every gated request ends in the error handler.
- The cookie's expiry date is not modelled. `JWT_COOKIE_EXPIRES_IN` only sets it.
- Sending e-mail is not modelled: `emailDelivered` says whether `sendEmail` resolved. The reset URL and message text are not built.
- Randomness and the clock are parameters: `random` for `crypto.randomBytes(32)`, and `now` for `Date.now()`.
- `console.log` calls are left out.
- Status codes are symbolic names. utils/globalConstants.ts is not part of this model.
- A Mongoose error thrown by a save is not modelled as a `DBError`. The handlers pass it on as `SaveFailed`.
- Concurrency is not modelled. The unawaited save in `forgotPassword` is modelled as finishing before the next statement.
- JavaScript prototype keys such as `__proto__` are not modelled. Neither are inputs that are not JSON values, apart from `Date` and the `mongoose.Schema.ObjectId` instance.
- Strings.TrimStart, Strings.TrimEnd, Strings.Trim: the function contracts state only the length bound. The lemmas beside them state the rest.

## Findings

| source | as written | input that shows it | evidently intended | confidence | as-written member | corrected member |
|---|---|---|---|---|---|---|
| src/controllers/authController.ts:181 | `correctPassword` is not awaited, so the Promise is always truthy. It also compares the new password, not the current one. The check never rejects. | user "ana" with password "oldsecret1"; request with `currentPassword` "wrongguess" and `password` "newsecret1" | the awaited comparison of `currentPassword` with the stored digest | not executed | AuthController.WrongCurrentPasswordAccepted | AuthController.CheckedUpdateNeedsCurrentPassword |
| src/schema/tourSchema.ts:46 | `val.price > val.priceDiscount` is false when `priceDiscount` is undefined | a valid tour body without `priceDiscount`; the empty update `{}` | a missing discount passes; a given one must be below the price | not executed | TourSchemas.TourWithoutDiscountRejected | TourSchemas.IntendedTourAccepts |
