/** The User model: the persisted record, the Mongoose validators declared on
    the schema, the two pre-save hooks, the pre-find hook that hides
    deactivated users, and the instance methods `changedPasswordAfter` and
    `createPasswordResetToken`.

    Cryptography is symbolic: `Bcrypt(p)` stands for `bcrypt.hash(p, 12)` and
    `Sha256Hex(s)` for the hex SHA-256 digest of `s`. Distinct arguments give
    distinct values (an idealised, collision-free hash). */
module UserModel {

  import opened Wrappers
  import Hex

  /** What the `password` field holds: the plaintext a handler assigned, or its bcrypt digest. */
  datatype StoredPassword = Plain(text: string) | Bcrypt(of: string)

  /** `crypto.createHash("sha256").update(s).digest("hex")`. */
  datatype Digest = Sha256Hex(of: string)

  const Roles: seq<string> := ["user", "guide", "lead-guide", "admin"]
  const DefaultRole: string := "user"
  /** `10 * 60 * 1000` ms: how long a reset token stays usable. */
  const ResetTokenLifetime: int := 600000
  /** `passwordChangedAt` is stamped this many ms before the save. */
  const ChangeStampOffset: int := 1000
  /** Bcrypt digests are 60 characters long. */
  const BcryptLength: nat := 60
  const PasswordMinLength: nat := 8

  datatype UserRecord = UserRecord(
    id: string,
    name: string,
    email: string,
    photo: Option<string>,
    role: string,
    password: Option<StoredPassword>,
    passwordConfirm: Option<string>,
    passwordChangedAt: Option<int>,      // ms since the epoch
    passwordResetToken: Option<Digest>,
    passwordResetExpires: Option<int>,   // ms since the epoch
    active: Option<bool>)
  {
    /** `changedPasswordAfter(JWTTimeStamp)`: the change time in whole seconds
        (`parseInt` of the quotient, so truncated) is strictly later than the token's. */
    predicate ChangedPasswordAfter(jwtTimestamp: int) {
      passwordChangedAt.Some? && TruncatedSeconds(passwordChangedAt.value) > jwtTimestamp
    }
  }

  /** The record `new User({ name, email, password, passwordConfirm })` builds:
      the schema defaults give role "user" and active true, and nothing else is set. */
  function NewUserRecord(id: string, name: string, email: string, password: string,
                         passwordConfirm: string): UserRecord
  {
    UserRecord(id, name, email, None, DefaultRole, Some(Plain(password)),
               Some(passwordConfirm), None, None, None, Some(true))
  }

  predicate IsPlain(p: Option<StoredPassword>) {
    p.Some? && p.value.Plain?
  }

  /** `bcrypt.compare(candidate, stored)` in the symbolic model. A missing
      stored password, on which bcrypt throws, counts as a mismatch here; no
      handler stores a user without a password, since signup validates and
      every other save writes back a stored user with its digest. */
  predicate BcryptCompare(candidate: string, stored: Option<StoredPassword>) {
    stored == Some(Bcrypt(candidate))
  }

  /** A digest verifies exactly the password it was made from. */
  lemma CompareAcceptsOnlyTheHashedPassword(p: string, q: string)
    ensures BcryptCompare(q, Some(Bcrypt(p))) <==> q == p
    ensures !BcryptCompare(q, Some(Plain(p)))
  {
  }

  /** `parseInt(String(ms / 1000), 10)`: the quotient truncated toward zero. */
  function TruncatedSeconds(ms: int): (s: int)
    ensures ms >= 0 ==> s * 1000 <= ms < s * 1000 + 1000
    ensures ms < 0 ==> s * 1000 - 1000 < ms <= s * 1000
  {
    if ms >= 0 then ms / 1000 else -((-ms) / 1000)
  }

  // ---------------------------------------------------------------------------
  // Schema validators (run by `save()` unless `validateBeforeSave` is false)

  datatype ValidatorError =
    | Required(path: string, message: string)
    | MinLength(path: string, minimum: nat)
    | NotInEnum(path: string, value: string)

  /** Length of the string stored in `password`. */
  function PasswordLength(p: StoredPassword): nat {
    match p
    case Plain(t) => |t|
    case Bcrypt(_) => BcryptLength
  }

  /** Mongoose's `required` rejects a missing value and the empty string. */
  predicate Present(s: Option<string>) {
    s.Some? && s.value != ""
  }

  /** `required` on `password`: a plaintext must be non-empty, and a stored
      digest is a 60-character string, so it is always present. */
  predicate PasswordPresent(p: Option<StoredPassword>) {
    p.Some? && PasswordLength(p.value) > 0
  }

  /** Errors of the schema's validators in path order; each path stops at its
      first failing validator. A digest is judged by its own length, as
      Mongoose sees the hashed string. */
  function ValidationErrors(r: UserRecord): (errs: seq<ValidatorError>)
    ensures errs == [] <==>
      r.name != "" && r.email != "" && r.role in Roles &&
      r.password.Some? && PasswordLength(r.password.value) >= PasswordMinLength &&
      Present(r.passwordConfirm)
  {
    (if r.name == "" then [Required("name", "Please provide your name.")] else []) +
    (if r.email == "" then [Required("email", "Please provide your email")] else []) +
    (if r.role !in Roles then [NotInEnum("role", r.role)] else []) +
    (if !PasswordPresent(r.password) then [Required("password", "Please provide a password")]
     else if PasswordLength(r.password.value) < PasswordMinLength then [MinLength("password", PasswordMinLength)]
     else []) +
    (if !Present(r.passwordConfirm) then [Required("passwordConfirm", "Please confirm your password")] else [])
  }

  // ---------------------------------------------------------------------------
  // Save hooks, as one function of the document state

  /** The record the two pre-save hooks leave behind: with a modified password it
      is hashed and the confirmation dropped, and on an existing document the
      change is stamped one second before `now`. Nothing else changes. */
  function AfterSaveHooks(r: UserRecord, isNew: bool, modified: bool, now: int): (s: UserRecord)
    requires modified ==> IsPlain(r.password)
    ensures !modified ==> s == r
    ensures modified ==> s.password == Some(Bcrypt(r.password.value.text)) && s.passwordConfirm == None
    ensures s.passwordChangedAt == if modified && !isNew then Some(now - ChangeStampOffset) else r.passwordChangedAt
    ensures s == r.(password := s.password, passwordConfirm := s.passwordConfirm,
                    passwordChangedAt := s.passwordChangedAt)
  {
    if !modified then r
    else
      var hashed := r.(password := Some(Bcrypt(r.password.value.text)), passwordConfirm := None);
      if isNew then hashed else hashed.(passwordChangedAt := Some(now - ChangeStampOffset))
  }

  /** A password-changing save at `now` makes a token stale exactly when it was
      issued two or more whole seconds before `now`: tokens from the second of
      the change and from the second before it survive. */
  lemma StaleWindow(r: UserRecord, now: int, iat: int)
    requires now >= ChangeStampOffset
    requires r.passwordChangedAt == Some(now - ChangeStampOffset)
    ensures r.ChangedPasswordAfter(iat) <==> iat < now / 1000 - 1
  {
    assert TruncatedSeconds(now - 1000) == now / 1000 - 1;
  }

  /** A token signed at or after the save (iat = floor(t / 1000), t >= now >= 0) is never stale. */
  lemma FreshTokenNotStale(r: UserRecord, now: int, t: int)
    requires 0 <= now <= t
    requires r.passwordChangedAt == Some(now - ChangeStampOffset)
    ensures !r.ChangedPasswordAfter(t / 1000)
  {
    var ms := now - 1000;
    if ms >= 0 {
      assert TruncatedSeconds(ms) * 1000 <= ms;
    } else {
      assert TruncatedSeconds(ms) * 1000 - 1000 < ms;
      assert TruncatedSeconds(ms) <= 0;
    }
  }

  // ---------------------------------------------------------------------------
  // Queries and the pre-find hook

  /** One clause of a Mongo filter over the user collection. */
  datatype Condition =
    | IdEquals(id: string)                 // { _id: id }
    | EmailEquals(email: string)           // { email: email }
    | ResetTokenEquals(digest: Digest)     // { passwordResetToken: digest }
    | ResetExpiresAfter(time: int)         // { passwordResetExpires: { $gt: time } }
    | ActiveNotEqual(value: bool)          // { active: { $ne: value } }

  predicate Satisfies(r: UserRecord, c: Condition) {
    match c
    case IdEquals(id) => r.id == id
    case EmailEquals(e) => r.email == e
    case ResetTokenEquals(d) => r.passwordResetToken == Some(d)
    case ResetExpiresAfter(t) => r.passwordResetExpires.Some? && r.passwordResetExpires.value > t
    case ActiveNotEqual(b) => r.active != Some(b)
  }

  predicate SatisfiesAll(r: UserRecord, filter: seq<Condition>) {
    forall c :: c in filter ==> Satisfies(r, c)
  }

  /** Index of the first record (in natural order) that matches the filter. */
  function FirstMatch(records: seq<UserRecord>, filter: seq<Condition>): (i: Option<nat>)
    ensures i.Some? ==> i.value < |records| && SatisfiesAll(records[i.value], filter)
    ensures i.Some? ==> forall j :: 0 <= j < i.value ==> !SatisfiesAll(records[j], filter)
    ensures i.None? <==> forall j :: 0 <= j < |records| ==> !SatisfiesAll(records[j], filter)
  {
    if records == [] then None
    else if SatisfiesAll(records[0], filter) then Some(0)
    else match FirstMatch(records[1..], filter)
      case None => None
      case Some(k) => Some(k + 1)
  }

  /** `findOne(filter)` without the hook. */
  function FindOne(records: seq<UserRecord>, filter: seq<Condition>): Option<UserRecord> {
    match FirstMatch(records, filter)
    case None => None
    case Some(i) => Some(records[i])
  }

  /** The filter the pre-find hook appends: `{ active: { $ne: false } }`. */
  const NotDeactivated: Condition := ActiveNotEqual(false)

  /** A find-family query as the application runs it: the hook's clause added. */
  function Find(records: seq<UserRecord>, filter: seq<Condition>): Option<UserRecord> {
    FindOne(records, filter + [NotDeactivated])
  }

  /** Every query excludes deactivated users, and a matching user whose `active`
      is true or absent is never missed. */
  lemma FindHidesOnlyDeactivated(records: seq<UserRecord>, filter: seq<Condition>)
    ensures Find(records, filter).Some? ==>
      Find(records, filter).value in records &&
      SatisfiesAll(Find(records, filter).value, filter) &&
      Find(records, filter).value.active != Some(false)
    ensures Find(records, filter).None? <==>
      forall j :: 0 <= j < |records| && SatisfiesAll(records[j], filter) ==> records[j].active == Some(false)
  {
    var f := filter + [NotDeactivated];
    forall r: UserRecord ensures SatisfiesAll(r, f) <==> SatisfiesAll(r, filter) && r.active != Some(false) {
      assert NotDeactivated in f;
      if SatisfiesAll(r, filter) && r.active != Some(false) {
        forall c | c in f ensures Satisfies(r, c) {
          if c !in filter { assert c == NotDeactivated; }
        }
      }
    }
  }

  /** A query object; the pre-find hook mutates its filter before it runs. */
  class FindQuery {
    var filter: seq<Condition>

    constructor (filter: seq<Condition>)
      ensures this.filter == filter
    {
      this.filter := filter;
    }

    /** `userSchema.pre(/^find/, ...)`: adds `active: { $ne: false }` to the query. */
    method PreFind()
      modifies this
      ensures filter == old(filter) + [NotDeactivated]
    {
      filter := filter + [NotDeactivated];
    }

    /** Runs the query against the collection's records. */
    method Exec(records: seq<UserRecord>) returns (found: Option<UserRecord>)
      ensures found == FindOne(records, filter)
      ensures found.Some? ==> found.value in records && SatisfiesAll(found.value, filter)
    {
      found := FindOne(records, filter);
    }
  }

  // ---------------------------------------------------------------------------
  // The collection

  /** Unique index on `_id` and on `email`; plaintext passwords are never
      persisted. A record without a password is allowed here, though no
      handler writes one. */
  ghost predicate StoreInvariant(records: seq<UserRecord>) {
    (forall i, j :: 0 <= i < j < |records| ==> records[i].id != records[j].id && records[i].email != records[j].email) &&
    (forall i :: 0 <= i < |records| ==> !IsPlain(records[i].password))
  }

  predicate IdTaken(records: seq<UserRecord>, id: string) {
    exists i :: 0 <= i < |records| && records[i].id == id
  }

  predicate EmailTakenByOther(records: seq<UserRecord>, email: string, id: string) {
    exists i :: 0 <= i < |records| && records[i].email == email && records[i].id != id
  }

  /** The collection after `r` overwrites the record with its id. */
  function ReplaceById(records: seq<UserRecord>, r: UserRecord): (s: seq<UserRecord>)
    ensures |s| == |records|
    ensures forall i :: 0 <= i < |records| ==> s[i] == if records[i].id == r.id then r else records[i]
  {
    if records == [] then []
    else [if records[0].id == r.id then r else records[0]] + ReplaceById(records[1..], r)
  }

  /** Two overwrites of the same id: the second wins. */
  lemma {:induction false} ReplaceTwice(records: seq<UserRecord>, a: UserRecord, b: UserRecord)
    requires a.id == b.id
    ensures ReplaceById(ReplaceById(records, a), b) == ReplaceById(records, b)
  {
    var l, r := ReplaceById(ReplaceById(records, a), b), ReplaceById(records, b);
    assert |l| == |r|;
    forall i | 0 <= i < |l| ensures l[i] == r[i] {
    }
  }

  /** With unique ids, overwriting by id is an update of the one position holding that id. */
  lemma ReplaceStored(records: seq<UserRecord>, i: nat, r: UserRecord)
    requires StoreInvariant(records) && i < |records| && r.id == records[i].id
    ensures ReplaceById(records, r) == records[i := r]
  {
    var s := ReplaceById(records, r);
    forall j | 0 <= j < |records| ensures s[j] == records[i := r][j] {
    }
  }

  /** Overwriting a stored record with one that keeps a fresh email and no
      plaintext password keeps the collection's invariant. */
  lemma ReplaceKeepsInvariant(records: seq<UserRecord>, r: UserRecord)
    requires StoreInvariant(records) && !IsPlain(r.password)
    requires !EmailTakenByOther(records, r.email, r.id)
    ensures StoreInvariant(ReplaceById(records, r))
  {
  }

  /** Appending a record with a fresh id and email keeps the invariant. */
  lemma AppendKeepsInvariant(records: seq<UserRecord>, r: UserRecord)
    requires StoreInvariant(records) && !IsPlain(r.password)
    requires !IdTaken(records, r.id) && !EmailTakenByOther(records, r.email, r.id)
    ensures StoreInvariant(records + [r])
  {
  }

  /** A stored record can be written back under its own id as long as its email
      does not change. */
  lemma StoredRecordWritable(records: seq<UserRecord>, i: nat, r: UserRecord)
    requires StoreInvariant(records) && i < |records|
    requires r.id == records[i].id && r.email == records[i].email
    ensures IdTaken(records, r.id) && !EmailTakenByOther(records, r.email, r.id)
  {
  }

  /** Saving, without validation, an unmodified document of a stored user whose
      email is unchanged succeeds and overwrites that user. */
  lemma WriteBackSucceeds(records: seq<UserRecord>, i: nat, r: UserRecord, now: int)
    requires StoreInvariant(records) && i < |records| && !IsPlain(r.password)
    requires r.id == records[i].id && r.email == records[i].email
    ensures SaveOutcome(records, r, false, false, now, false) == Ok(r)
    ensures AfterSave(records, r, false, false, now) == ReplaceById(records, r)
    ensures StoreInvariant(ReplaceById(records, r))
  {
    StoredRecordWritable(records, i, r);
    assert AfterSaveHooks(r, false, false, now) == r;
    assert SaveOutcome(records, r, false, false, now, false) == Ok(r);
    ReplaceKeepsInvariant(records, r);
  }

  /** With unique ids, a query on an id finds the stored record unless it is deactivated. */
  lemma FindByUniqueId(records: seq<UserRecord>, i: nat)
    requires StoreInvariant(records) && i < |records|
    ensures Find(records, [IdEquals(records[i].id)]) ==
      if records[i].active == Some(false) then None else Some(records[i])
  {
    var f := [IdEquals(records[i].id)];
    FindHidesOnlyDeactivated(records, f);
    assert Satisfies(records[i], f[0]);
    if Find(records, f).Some? {
      var u := Find(records, f).value;
      assert Satisfies(u, f[0]);
      var j :| 0 <= j < |records| && records[j] == u;
      assert j == i;
    }
  }

  datatype WriteError = DuplicateKey | DocumentNotFound

  class UserCollection {
    var records: seq<UserRecord>

    ghost predicate Valid()
      reads this
    {
      StoreInvariant(records)
    }

    constructor ()
      ensures Valid() && records == []
    {
      records := [];
    }

    /** `insertOne`: refused with E11000 when the id or the email is already used. */
    method Insert(r: UserRecord) returns (result: Result<(), WriteError>)
      requires Valid() && !IsPlain(r.password)
      modifies this
      ensures Valid()
      ensures result.Ok? <==> !IdTaken(old(records), r.id) && !EmailTakenByOther(old(records), r.email, r.id)
      ensures result.Err? ==> result.error == DuplicateKey
      ensures records == if result.Ok? then old(records) + [r] else old(records)
    {
      if IdTaken(records, r.id) || EmailTakenByOther(records, r.email, r.id) {
        result := Err(DuplicateKey);
      } else {
        records := records + [r];
        result := Ok(());
      }
    }

    /** `updateOne({ _id })` of a saved document: fails when the document is gone
        or its email now collides with another user's. */
    method Update(r: UserRecord) returns (result: Result<(), WriteError>)
      requires Valid() && !IsPlain(r.password)
      modifies this
      ensures Valid()
      ensures result.Ok? <==> IdTaken(old(records), r.id) && !EmailTakenByOther(old(records), r.email, r.id)
      ensures result == Err(DocumentNotFound) <==> !IdTaken(old(records), r.id)
      ensures records == if result.Ok? then ReplaceById(old(records), r) else old(records)
    {
      if !IdTaken(records, r.id) {
        result := Err(DocumentNotFound);
      } else if EmailTakenByOther(records, r.email, r.id) {
        result := Err(DuplicateKey);
      } else {
        records := ReplaceById(records, r);
        result := Ok(());
      }
    }
  }

  // ---------------------------------------------------------------------------
  // The document

  datatype SaveError = Invalid(errors: seq<ValidatorError>) | WriteFailed(error: WriteError)

  /** Whether `save()` gets past validation and the write. */
  predicate SaveSucceeds(records: seq<UserRecord>, r: UserRecord, isNew: bool, modified: bool,
                         now: int, validate: bool)
    requires modified ==> IsPlain(r.password)
  {
    var s := AfterSaveHooks(r, isNew, modified, now);
    (!validate || ValidationErrors(r) == []) &&
    (if isNew then !IdTaken(records, s.id) else IdTaken(records, s.id)) &&
    !EmailTakenByOther(records, s.email, s.id)
  }

  /** What `save()` resolves to, or the error it rejects with: validation
      first, then the hooks, then an insert (new document) or an update. */
  function SaveOutcome(records: seq<UserRecord>, r: UserRecord, isNew: bool, modified: bool,
                       now: int, validate: bool): (out: Result<UserRecord, SaveError>)
    requires modified ==> IsPlain(r.password)
    ensures out.Ok? <==> SaveSucceeds(records, r, isNew, modified, now, validate)
    ensures out.Ok? ==> out.value == AfterSaveHooks(r, isNew, modified, now)
    ensures validate && ValidationErrors(r) != [] ==> out == Err(Invalid(ValidationErrors(r)))
    ensures out.Err? && out.error.WriteFailed? ==>
      (out.error.error == DocumentNotFound <==> !isNew && !IdTaken(records, r.id))
  {
    var s := AfterSaveHooks(r, isNew, modified, now);
    if validate && ValidationErrors(r) != [] then Err(Invalid(ValidationErrors(r)))
    else if isNew && (IdTaken(records, s.id) || EmailTakenByOther(records, s.email, s.id)) then
      Err(WriteFailed(DuplicateKey))
    else if !isNew && !IdTaken(records, s.id) then Err(WriteFailed(DocumentNotFound))
    else if !isNew && EmailTakenByOther(records, s.email, s.id) then Err(WriteFailed(DuplicateKey))
    else Ok(s)
  }

  /** The collection after a successful `save()`. */
  function AfterSave(records: seq<UserRecord>, r: UserRecord, isNew: bool, modified: bool, now: int): seq<UserRecord>
    requires modified ==> IsPlain(r.password)
  {
    var s := AfterSaveHooks(r, isNew, modified, now);
    if isNew then records + [s] else ReplaceById(records, s)
  }

  /** A Mongoose document of the User model: the record's fields, whether it has
      been saved yet, and whether `password` was assigned since the last save. */
  class UserDocument {
    var rec: UserRecord
    var isNew: bool
    var passwordModified: bool

    /** `isModified("password")` exactly when the field holds a plaintext. */
    ghost predicate Valid()
      reads this
    {
      passwordModified <==> IsPlain(rec.password)
    }

    /** `new User({ name, email, password, passwordConfirm })`. */
    constructor Create(id: string, name: string, email: string, password: string, passwordConfirm: string)
      ensures Valid() && isNew && passwordModified
      ensures rec == NewUserRecord(id, name, email, password, passwordConfirm)
    {
      rec := NewUserRecord(id, name, email, password, passwordConfirm);
      isNew := true;
      passwordModified := true;
    }

    /** A document a query returned. */
    constructor Hydrate(r: UserRecord)
      requires !IsPlain(r.password)
      ensures Valid() && rec == r && !isNew && !passwordModified
    {
      rec := r;
      isNew := false;
      passwordModified := false;
    }

    /** `doc.password = p`: marks the path modified. */
    method AssignPassword(p: string)
      modifies this
      ensures Valid()
      ensures rec == old(rec).(password := Some(Plain(p)))
      ensures passwordModified && isNew == old(isNew)
    {
      rec := rec.(password := Some(Plain(p)));
      passwordModified := true;
    }

    /** First pre-save hook: hash a modified password and drop the confirmation. */
    method HashPasswordHook()
      requires passwordModified ==> IsPlain(rec.password)
      modifies this
      ensures isNew == old(isNew) && passwordModified == old(passwordModified)
      ensures old(passwordModified) ==>
        rec == old(rec).(password := Some(Bcrypt(old(rec).password.value.text)), passwordConfirm := None)
      ensures !old(passwordModified) ==> rec == old(rec)
    {
      if !passwordModified {
        return;
      }
      var hashed := Bcrypt(rec.password.value.text);
      rec := rec.(password := Some(hashed));
      rec := rec.(passwordConfirm := None);
    }

    /** Second pre-save hook: on an existing document whose password changed,
        stamp `passwordChangedAt` one second before now. */
    method StampPasswordChangedHook(now: int)
      modifies this
      ensures isNew == old(isNew) && passwordModified == old(passwordModified)
      ensures rec == if old(passwordModified) && !old(isNew)
                     then old(rec).(passwordChangedAt := Some(now - ChangeStampOffset))
                     else old(rec)
    {
      if !passwordModified || isNew {
        return;
      }
      rec := rec.(passwordChangedAt := Some(now - ChangeStampOffset));
    }

    /** `save({ validateBeforeSave })`: validators, then the two hooks in
        declaration order, then the write; a saved document is no longer new
        and no longer modified. */
    method Save(store: UserCollection, now: int, validateBeforeSave: bool) returns (result: Result<UserRecord, SaveError>)
      requires Valid() && store.Valid()
      modifies this, store
      ensures store.Valid()
      ensures result == SaveOutcome(old(store.records), old(rec), old(isNew), old(passwordModified), now, validateBeforeSave)
      ensures result.Ok? ==>
        rec == result.value && !isNew && !passwordModified && Valid() &&
        store.records == AfterSave(old(store.records), old(rec), old(isNew), old(passwordModified), now)
      ensures result.Err? ==> store.records == old(store.records)
      ensures result.Err? ==>
        isNew == old(isNew) && passwordModified == old(passwordModified) &&
        rec == if result.error.Invalid? then old(rec)
               else AfterSaveHooks(old(rec), old(isNew), old(passwordModified), now)
    {
      if validateBeforeSave {
        var errs := ValidationErrors(rec);
        if errs != [] {
          return Err(Invalid(errs));
        }
      }
      ghost var before := rec;
      HashPasswordHook();
      StampPasswordChangedHook(now);
      assert rec == AfterSaveHooks(before, isNew, passwordModified, now);
      var written;
      if isNew {
        written := store.Insert(rec);
      } else {
        written := store.Update(rec);
      }
      if written.Err? {
        assert written.error == DuplicateKey || written.error == DocumentNotFound;
        return Err(WriteFailed(written.error));
      }
      isNew := false;
      passwordModified := false;
      result := Ok(rec);
    }

    /** `createPasswordResetToken()`: 32 random bytes as 64 lower-case hex
        characters are returned; only their SHA-256 is kept, with an expiry ten
        minutes after `now`, both set together. */
    method CreatePasswordResetToken(now: int, random: seq<Hex.byte>) returns (resetToken: string)
      requires |random| == 32
      modifies this
      ensures resetToken == Hex.Encode(random)
      ensures |resetToken| == 64 && forall i :: 0 <= i < 64 ==> Hex.IsHexDigit(resetToken[i])
      ensures rec == old(rec).(passwordResetToken := Some(Sha256Hex(resetToken)),
                               passwordResetExpires := Some(now + ResetTokenLifetime))
      ensures isNew == old(isNew) && passwordModified == old(passwordModified)
    {
      resetToken := Hex.Encode(random);
      rec := rec.(passwordResetToken := Some(Sha256Hex(resetToken)));
      rec := rec.(passwordResetExpires := Some(now + ResetTokenLifetime));
    }
  }

  /** A saved document at time `now` makes the reset token it was given usable
      exactly until `now + 600000` (exclusive), and the digest matches only that token. */
  lemma ResetTokenWindow(r: UserRecord, token: string, now: int, later: int, presented: string)
    requires r.passwordResetToken == Some(Sha256Hex(token))
    requires r.passwordResetExpires == Some(now + ResetTokenLifetime)
    ensures SatisfiesAll(r, [ResetTokenEquals(Sha256Hex(presented)), ResetExpiresAfter(later)]) <==>
      presented == token && later < now + ResetTokenLifetime
  {
    var f := [ResetTokenEquals(Sha256Hex(presented)), ResetExpiresAfter(later)];
    if SatisfiesAll(r, f) {
      assert Satisfies(r, f[0]) && Satisfies(r, f[1]);
    }
  }
}
