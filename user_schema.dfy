/** The request-body schemas for users: the full record shape, the sign-up
    body (with the two passwords required to agree), the login body, the
    reset-password body and the update-password body. */
module UserSchemas {

  import opened Wrappers
  import opened Zod
  import Strings

  const Roles: seq<string> := ["user", "guide", "lead-guide", "admin"]

  const NameSchema: Schema := ZString(Some("Please provide your name"), [Trim])
  const EmailSchema: Schema :=
    ZString(Some("Please provide your email"), [Email(Some("Please provide a valid email")), ToLowerCase, Trim])
  const PhotoSchema: Schema := ZOptional(ZString(None, []))
  const RoleSchema: Schema := ZDefault(Str("user"), ZOptional(ZEnum(Roles, None)))
  const PasswordSchema: Schema := ZString(Some("Please provide a password"), [MinLength(8, None)])
  const PasswordConfirmSchema: Schema := ZString(Some("Please confirm your password"), [MinLength(8, None)])
  const ActiveSchema: Schema := ZDefault(Bool(true), ZOptional(ZBoolean))
  const CurrentPasswordSchema: Schema :=
    ZString(Some("Please provide the current password"), [MinLength(8, Some("Password must be greater than 8 characters"))])

  const BasicUserShape: seq<Field> := [
    Field("_id", ZString(None, [])),
    Field("name", NameSchema),
    Field("email", EmailSchema),
    Field("photo", PhotoSchema),
    Field("role", RoleSchema),
    Field("password", PasswordSchema),
    Field("passwordConfirm", PasswordConfirmSchema),
    Field("passwordChangedAt", ZDate),
    Field("passwordResetToken", ZString(None, [])),
    Field("passwordResetExpires", ZDate),
    Field("active", ActiveSchema)
  ]

  const BasicUserSchema: Schema := ZObject(BasicUserShape)

  /** The fields the server sets itself. */
  const ServerSetKeys: set<string> := {"_id", "passwordChangedAt", "passwordResetExpires", "passwordResetToken"}

  /** The record shape without the fields the server sets itself. */
  const UserShape: seq<Field> := Omit(BasicUserShape, ServerSetKeys)

  /** `val.password === val.passwordConfirm` (both are strings or missing when it runs). */
  predicate PasswordsMatch(v: JsValue) {
    Get(v, "password") == Get(v, "passwordConfirm")
  }

  const MismatchPath: seq<PathItem> := [Key("passwordConfirm")]
  const MismatchMessage: string := "Passwords are not the same!"

  const CreateUserSchema: Schema := ZRefine(ZObject(UserShape), PasswordsMatch, MismatchPath, MismatchMessage)
  const LoginSchema: Schema := ZObject(Pick(UserShape, ["email", "password"]))
  const ResetPasswordSchema: Schema :=
    ZRefine(ZObject(Pick(UserShape, ["password", "passwordConfirm"])), PasswordsMatch, MismatchPath, MismatchMessage)
  const UpdatePasswordSchema: Schema :=
    ZRefine(ZObject(Extend(Pick(UserShape, ["password", "passwordConfirm"]), [Field("currentPassword", CurrentPasswordSchema)])),
            PasswordsMatch, MismatchPath, MismatchMessage)

  // ---------------------------------------------------------------------------
  // The shapes after omit, pick and extend

  // `omit` two fields at a time, from the last

  lemma UserShapeFrom9()
    ensures Omit(BasicUserShape[9..], ServerSetKeys) == [BasicUserShape[10]]
  {
    var s, k := BasicUserShape, ServerSetKeys;
    OmitStep(s, k, 10);
    assert s[11..] == [];
    OmitStep(s, k, 9);
  }

  lemma UserShapeFrom7()
    ensures Omit(BasicUserShape[7..], ServerSetKeys) == [BasicUserShape[10]]
  {
    UserShapeFrom9();
    OmitStep(BasicUserShape, ServerSetKeys, 8);
    OmitStep(BasicUserShape, ServerSetKeys, 7);
  }

  lemma UserShapeFrom5()
    ensures var s := BasicUserShape;
      Omit(s[5..], ServerSetKeys) == [s[5], s[6], s[10]]
  {
    UserShapeFrom7();
    OmitStep(BasicUserShape, ServerSetKeys, 6);
    OmitStep(BasicUserShape, ServerSetKeys, 5);
  }

  lemma UserShapeFrom4()
    ensures var s := BasicUserShape;
      Omit(s[4..], ServerSetKeys) == [s[4], s[5], s[6], s[10]]
  {
    UserShapeFrom5();
    OmitStep(BasicUserShape, ServerSetKeys, 4);
  }

  lemma UserShapeFrom3()
    ensures var s := BasicUserShape;
      Omit(s[3..], ServerSetKeys) == [s[3], s[4], s[5], s[6], s[10]]
  {
    UserShapeFrom4();
    OmitStep(BasicUserShape, ServerSetKeys, 3);
  }

  lemma UserShapeFrom2()
    ensures var s := BasicUserShape;
      Omit(s[2..], ServerSetKeys) == [s[2], s[3], s[4], s[5], s[6], s[10]]
  {
    UserShapeFrom3();
    OmitStep(BasicUserShape, ServerSetKeys, 2);
  }

  lemma UserShapeFrom1()
    ensures var s := BasicUserShape;
      Omit(s[1..], ServerSetKeys) == [s[1], s[2], s[3], s[4], s[5], s[6], s[10]]
  {
    UserShapeFrom2();
    OmitStep(BasicUserShape, ServerSetKeys, 1);
  }

  lemma UserShapeFront()
    ensures var s := BasicUserShape;
      UserShape == [s[1], s[2], s[3], s[4], s[5], s[6], s[10]]
  {
    UserShapeFrom1();
    OmitStep(BasicUserShape, ServerSetKeys, 0);
    assert BasicUserShape[0..] == BasicUserShape;
  }

  lemma UserShapeFields()
    ensures UserShape == [
      Field("name", NameSchema), Field("email", EmailSchema), Field("photo", PhotoSchema),
      Field("role", RoleSchema), Field("password", PasswordSchema),
      Field("passwordConfirm", PasswordConfirmSchema), Field("active", ActiveSchema)]
  {
    UserShapeFront();
  }

  lemma LoginShapeFields()
    ensures LoginSchema == ZObject([Field("email", EmailSchema), Field("password", PasswordSchema)])
  {
    UserShapeFields();
    FieldOfFirst(UserShape, 1);
    FieldOfFirst(UserShape, 4);
    assert Pick(UserShape, ["password"]) == [UserShape[4]];
  }

  lemma ResetShapeFields()
    ensures Pick(UserShape, ["password", "passwordConfirm"]) ==
      [Field("password", PasswordSchema), Field("passwordConfirm", PasswordConfirmSchema)]
  {
    UserShapeFields();
    FieldOfFirst(UserShape, 4);
    FieldOfFirst(UserShape, 5);
    assert Pick(UserShape, ["passwordConfirm"]) == [UserShape[5]];
  }

  lemma UpdateShapeFields()
    ensures Extend(Pick(UserShape, ["password", "passwordConfirm"]), [Field("currentPassword", CurrentPasswordSchema)]) ==
      [Field("password", PasswordSchema), Field("passwordConfirm", PasswordConfirmSchema),
       Field("currentPassword", CurrentPasswordSchema)]
  {
    ResetShapeFields();
    var picked := Pick(UserShape, ["password", "passwordConfirm"]);
    var more := [Field("currentPassword", CurrentPasswordSchema)];
    assert FieldOf(more[1..], "password") == FieldOf(more[1..], "passwordConfirm") == None;
    assert Overlay(picked[2..], more) == [];
    assert Overlay(picked[1..], more) == [picked[1]];
    assert Omit(more, set k | 0 <= k < |picked| :: picked[k].key) == more;
  }

  // ---------------------------------------------------------------------------
  // One field at a time

  /** A name is any string, stored trimmed. */
  lemma NameRule(v: JsValue, path: seq<PathItem>, isEmail: string -> bool)
    ensures Parse(NameSchema, v, path, isEmail) ==
      if v.Str? then Parsed(Valid, Str(Strings.Trim(v.s)), [])
      else Abort(InvalidType, path, TypeErrorMessage(Some("Please provide your name"), v))
  {
  }

  /** The address is judged as given — before lower-casing and trimming — and
      the output is the lower-cased, trimmed string. */
  lemma EmailRule(v: JsValue, path: seq<PathItem>, isEmail: string -> bool)
    ensures !v.Str? ==>
      Parse(EmailSchema, v, path, isEmail) ==
      Abort(InvalidType, path, TypeErrorMessage(Some("Please provide your email"), v))
    ensures v.Str? ==>
      Parse(EmailSchema, v, path, isEmail) ==
      Checked(Str(Strings.Trim(Strings.ToLower(v.s))),
              if isEmail(v.s) then [] else [Issue(InvalidEmail, path, Some("Please provide a valid email"))])
  {
    if v.Str? {
      var checks := [Email(Some("Please provide a valid email")), ToLowerCase, Trim];
      var out := Strings.Trim(Strings.ToLower(v.s));
      assert StringChecks(out, [], path, isEmail) == (out, []);
      assert StringChecks(Strings.ToLower(v.s), [Trim], path, isEmail) == (out, []);
      assert StringChecks(v.s, [ToLowerCase, Trim], path, isEmail) == (out, []);
      assert checks[1..] == [ToLowerCase, Trim];
    }
  }

  /** A password of at least 8 characters; a shorter string leaves the parse dirty. */
  lemma PasswordRule(schema: Schema, required: string, message: Option<string>, v: JsValue,
                     path: seq<PathItem>, isEmail: string -> bool)
    requires schema == ZString(Some(required), [MinLength(8, message)])
    ensures !v.Str? ==> Parse(schema, v, path, isEmail) == Abort(InvalidType, path, TypeErrorMessage(Some(required), v))
    ensures v.Str? && |v.s| >= 8 ==> Parse(schema, v, path, isEmail) == Parsed(Valid, v, [])
    ensures v.Str? && |v.s| < 8 ==> Parse(schema, v, path, isEmail) == Parsed(Dirty, v, [Issue(TooSmall(8.0), path, message)])
  {
    if v.Str? {
      assert StringChecks(v.s, [MinLength(8, message)][1..], path, isEmail) == (v.s, []);
      assert Str(v.s) == v;
    }
  }

  /** A photo is optional and, when given, any string, kept as given. */
  lemma PhotoRule(v: JsValue, path: seq<PathItem>, isEmail: string -> bool)
    ensures Parse(PhotoSchema, v, path, isEmail) ==
      if v.Undefined? || v.Str? then Parsed(Valid, v, []) else Abort(InvalidType, path, None)
  {
    if v.Str? {
      assert Str(v.s) == v;
    }
  }

  /** A missing role becomes "user"; a given one must be one of the four roles. */
  lemma RoleRule(v: JsValue, path: seq<PathItem>, isEmail: string -> bool)
    ensures v.Undefined? ==> Parse(RoleSchema, v, path, isEmail) == Parsed(Valid, Str("user"), [])
    ensures v.Str? && v.s in Roles ==> Parse(RoleSchema, v, path, isEmail) == Parsed(Valid, v, [])
    ensures v.Str? && v.s !in Roles ==> Parse(RoleSchema, v, path, isEmail) == Abort(InvalidEnumValue, path, None)
    ensures !v.Undefined? && !v.Str? ==> Parse(RoleSchema, v, path, isEmail) == Abort(InvalidType, path, None)
  {
  }

  /** A missing flag becomes `true`; a given one must be a boolean. */
  lemma ActiveRule(v: JsValue, path: seq<PathItem>, isEmail: string -> bool)
    ensures Parse(ActiveSchema, v, path, isEmail) ==
      if v.Undefined? then Parsed(Valid, Bool(true), [])
      else if v.Bool? then Parsed(Valid, v, [])
      else Abort(InvalidType, path, None)
  {
  }

  // ---------------------------------------------------------------------------
  // The sign-up body

  predicate IsPassword(v: JsValue) {
    v.Str? && |v.s| >= 8
  }

  /** What each field of the sign-up body must be for the object to parse cleanly. */
  predicate SignupFieldsValid(m: map<string, JsValue>, isEmail: string -> bool) {
    var email := Lookup(m, "email");
    var photo := Lookup(m, "photo");
    var role := Lookup(m, "role");
    var active := Lookup(m, "active");
    Lookup(m, "name").Str? &&
    email.Str? && isEmail(email.s) &&
    (photo.Undefined? || photo.Str?) &&
    (role.Undefined? || (role.Str? && role.s in Roles)) &&
    IsPassword(Lookup(m, "password")) && IsPassword(Lookup(m, "passwordConfirm")) &&
    (active.Undefined? || active.Bool?)
  }

  lemma UserShapeDistinct()
    ensures |UserShape| == 7
    ensures forall k :: 0 <= k < 7 ==> KeyUniqueAt(UserShape, k)
  {
    UserShapeFields();
  }

  /** The profile fields of the user shape, read from `m`, against their own rules. */
  lemma UserProfileFieldRules(m: map<string, JsValue>, path: seq<PathItem>, isEmail: string -> bool)
    ensures |UserShape| == 7
    ensures FieldParse(UserShape, 0, m, path, isEmail).status == Valid <==> Lookup(m, "name").Str?
    ensures FieldParse(UserShape, 1, m, path, isEmail).status == Valid <==>
            Lookup(m, "email").Str? && isEmail(Lookup(m, "email").s)
    ensures FieldParse(UserShape, 2, m, path, isEmail).status == Valid <==>
            Lookup(m, "photo").Undefined? || Lookup(m, "photo").Str?
    ensures FieldParse(UserShape, 3, m, path, isEmail).status == Valid <==>
            Lookup(m, "role").Undefined? || (Lookup(m, "role").Str? && Lookup(m, "role").s in Roles)
  {
    UserShapeFields();
    var u := UserShape;
    assert FieldParse(u, 0, m, path, isEmail).status == Valid <==> Lookup(m, "name").Str? by {
      NameRule(Lookup(m, "name"), path + [Key("name")], isEmail);
    }
    assert FieldParse(u, 1, m, path, isEmail).status == Valid <==>
           Lookup(m, "email").Str? && isEmail(Lookup(m, "email").s) by {
      EmailRule(Lookup(m, "email"), path + [Key("email")], isEmail);
    }
    assert FieldParse(u, 3, m, path, isEmail).status == Valid <==>
           Lookup(m, "role").Undefined? || (Lookup(m, "role").Str? && Lookup(m, "role").s in Roles) by {
      RoleRule(Lookup(m, "role"), path + [Key("role")], isEmail);
    }
  }

  /** The account fields of the user shape, read from `m`, against their own rules. */
  lemma UserAccountFieldRules(m: map<string, JsValue>, path: seq<PathItem>, isEmail: string -> bool)
    ensures |UserShape| == 7
    ensures FieldParse(UserShape, 4, m, path, isEmail).status == Valid <==> IsPassword(Lookup(m, "password"))
    ensures FieldParse(UserShape, 5, m, path, isEmail).status == Valid <==> IsPassword(Lookup(m, "passwordConfirm"))
    ensures FieldParse(UserShape, 6, m, path, isEmail).status == Valid <==>
            Lookup(m, "active").Undefined? || Lookup(m, "active").Bool?
  {
    UserShapeFields();
    var u := UserShape;
    assert FieldParse(u, 4, m, path, isEmail).status == Valid <==> IsPassword(Lookup(m, "password")) by {
      PasswordRule(PasswordSchema, "Please provide a password", None, Lookup(m, "password"),
                   path + [Key("password")], isEmail);
    }
    assert FieldParse(u, 5, m, path, isEmail).status == Valid <==> IsPassword(Lookup(m, "passwordConfirm")) by {
      PasswordRule(PasswordConfirmSchema, "Please confirm your password", None, Lookup(m, "passwordConfirm"),
                   path + [Key("passwordConfirm")], isEmail);
    }
    assert FieldParse(u, 6, m, path, isEmail).status == Valid <==>
           Lookup(m, "active").Undefined? || Lookup(m, "active").Bool? by {
      ActiveRule(Lookup(m, "active"), path + [Key("active")], isEmail);
    }
  }

  /** The user object (before the password refinement) is valid exactly when every
      field is. */
  lemma UserObjectValid(m: map<string, JsValue>, path: seq<PathItem>, isEmail: string -> bool)
    ensures Parse(ZObject(UserShape), Obj(m), path, isEmail).status == Valid <==> SignupFieldsValid(m, isEmail)
  {
    UserProfileFieldRules(m, path, isEmail);
    UserAccountFieldRules(m, path, isEmail);
    FieldsValidIffEachValid(ZObject(UserShape), 0, m, path, isEmail);
    if SignupFieldsValid(m, isEmail) {
      forall k | 0 <= k < |UserShape|
        ensures FieldParse(UserShape, k, m, path, isEmail).status == Valid
      {
        assert k == 0 || k == 1 || k == 2 || k == 3 || k == 4 || k == 5 || k == 6;
      }
    }
  }

  const UserKeys: seq<string> := ["name", "email", "photo", "role", "password", "passwordConfirm", "active"]

  /** Unless the user object aborts, its output keeps only the seven user keys. */
  lemma UserObjectStrips(m: map<string, JsValue>, path: seq<PathItem>, isEmail: string -> bool)
    requires Parse(ZObject(UserShape), Obj(m), path, isEmail).status != Aborted
    ensures var out := Parse(ZObject(UserShape), Obj(m), path, isEmail).value;
      out.Obj? && forall key :: key in out.fields ==> key in UserKeys
  {
    UserShapeFields();
    UserShapeDistinct();
    var u := UserShape;
    var out := Parse(ZObject(u), Obj(m), path, isEmail).value;
    ObjectStrips(u, m, path, isEmail);
    forall key | key in out.fields
      ensures key in UserKeys
    {
      var k :| 0 <= k < |u| && u[k].key == key;
      assert k == 0 || k == 1 || k == 2 || k == 3 || k == 4 || k == 5 || k == 6;
    }
  }

  /** Unless the user object aborts, its output holds the trimmed name, the
      lower-cased and trimmed email and the photo as given. */
  lemma UserObjectProfile(m: map<string, JsValue>, path: seq<PathItem>, isEmail: string -> bool)
    requires Parse(ZObject(UserShape), Obj(m), path, isEmail).status != Aborted
    ensures var out := Parse(ZObject(UserShape), Obj(m), path, isEmail).value;
      var name := Lookup(m, "name");
      var email := Lookup(m, "email");
      name.Str? && Get(out, "name") == Str(Strings.Trim(name.s)) &&
      email.Str? && Get(out, "email") == Str(Strings.Trim(Strings.ToLower(email.s))) &&
      Get(out, "photo") == Lookup(m, "photo")
  {
    UserShapeFields();
    UserShapeDistinct();
    var u := UserShape;
    ObjectField(u, m, path, isEmail, 0);
    NameRule(Lookup(m, "name"), path + [Key("name")], isEmail);
    ObjectField(u, m, path, isEmail, 1);
    EmailRule(Lookup(m, "email"), path + [Key("email")], isEmail);
    ObjectField(u, m, path, isEmail, 2);
    PhotoRule(Lookup(m, "photo"), path + [Key("photo")], isEmail);
  }

  /** Unless the user object aborts, its output holds the role (default "user"),
      both passwords as given and the active flag (default true). */
  lemma UserObjectAccount(m: map<string, JsValue>, path: seq<PathItem>, isEmail: string -> bool)
    requires Parse(ZObject(UserShape), Obj(m), path, isEmail).status != Aborted
    ensures var out := Parse(ZObject(UserShape), Obj(m), path, isEmail).value;
      var role := Lookup(m, "role");
      var active := Lookup(m, "active");
      Get(out, "role") == (if role.Undefined? then Str("user") else role) &&
      Lookup(m, "password").Str? && Get(out, "password") == Lookup(m, "password") &&
      Lookup(m, "passwordConfirm").Str? && Get(out, "passwordConfirm") == Lookup(m, "passwordConfirm") &&
      Get(out, "active") == (if active.Undefined? then Bool(true) else active)
  {
    UserShapeFields();
    UserShapeDistinct();
    var u := UserShape;
    ObjectField(u, m, path, isEmail, 3);
    RoleRule(Lookup(m, "role"), path + [Key("role")], isEmail);
    ObjectField(u, m, path, isEmail, 4);
    PasswordRule(PasswordSchema, "Please provide a password", None, Lookup(m, "password"),
                 path + [Key("password")], isEmail);
    ObjectField(u, m, path, isEmail, 5);
    PasswordRule(PasswordConfirmSchema, "Please confirm your password", None, Lookup(m, "passwordConfirm"),
                 path + [Key("passwordConfirm")], isEmail);
    ObjectField(u, m, path, isEmail, 6);
    ActiveRule(Lookup(m, "active"), path + [Key("active")], isEmail);
  }

  // ---------------------------------------------------------------------------
  // What each body schema accepts

  /** The sign-up body is accepted exactly when every field is valid and the two
      passwords are the same string. */
  lemma CreateUserAccepts(m: map<string, JsValue>, isEmail: string -> bool)
    ensures SafeParse(CreateUserSchema, Obj(m), isEmail).Success? <==>
      SignupFieldsValid(m, isEmail) && Lookup(m, "password") == Lookup(m, "passwordConfirm")
  {
    var inner := Parse(ZObject(UserShape), Obj(m), [], isEmail);
    UserObjectValid(m, [], isEmail);
    if inner.status != Aborted {
      UserObjectAccount(m, [], isEmail);
    }
  }

  /** The sign-up schema is the user object followed by the password comparison. */
  lemma CreateUserRefinement(m: map<string, JsValue>, isEmail: string -> bool)
    ensures var inner := Parse(ZObject(UserShape), Obj(m), [], isEmail);
      Parse(CreateUserSchema, Obj(m), [], isEmail) ==
      if inner.status == Aborted || PasswordsMatch(inner.value) then inner
      else Parsed(Dirty, inner.value, inner.issues + [Issue(Custom, [Key("passwordConfirm")], Some(MismatchMessage))])
  {
    var empty: seq<PathItem> := [];
    assert empty + MismatchPath == [Key("passwordConfirm")];
  }

  /** An accepted sign-up body comes out normalised: unknown keys (an `_id`, a
      reset token) dropped, name trimmed, email lower-cased and trimmed, role
      "user" and active `true` unless given. A role given in the body is kept. */
  lemma CreateUserOutput(m: map<string, JsValue>, isEmail: string -> bool)
    requires SafeParse(CreateUserSchema, Obj(m), isEmail).Success?
    ensures var out := SafeParse(CreateUserSchema, Obj(m), isEmail).data;
      var name := Lookup(m, "name");
      var email := Lookup(m, "email");
      var role := Lookup(m, "role");
      var active := Lookup(m, "active");
      out.Obj? && (forall key :: key in out.fields ==> key in UserKeys) &&
      name.Str? && Get(out, "name") == Str(Strings.Trim(name.s)) &&
      email.Str? && Get(out, "email") == Str(Strings.Trim(Strings.ToLower(email.s))) &&
      Get(out, "photo") == Lookup(m, "photo") &&
      Get(out, "role") == (if role.Undefined? then Str("user") else role) &&
      Get(out, "password") == Get(out, "passwordConfirm") == Lookup(m, "password") &&
      Get(out, "active") == (if active.Undefined? then Bool(true) else active)
  {
    var inner := Parse(ZObject(UserShape), Obj(m), [], isEmail);
    CreateUserRefinement(m, isEmail);
    assert SafeParse(CreateUserSchema, Obj(m), isEmail).data == inner.value;
    UserObjectStrips(m, [], isEmail);
    UserObjectProfile(m, [], isEmail);
    UserObjectAccount(m, [], isEmail);
  }

  /** When the fields are fine but the passwords differ, the only issue is the
      mismatch, reported under `passwordConfirm`. */
  lemma MismatchIsTheOnlyIssue(m: map<string, JsValue>, isEmail: string -> bool)
    requires SignupFieldsValid(m, isEmail)
    requires Lookup(m, "password") != Lookup(m, "passwordConfirm")
    ensures SafeParse(CreateUserSchema, Obj(m), isEmail) ==
      Failure([Issue(Custom, [Key("passwordConfirm")], Some("Passwords are not the same!"))])
  {
    var inner := Parse(ZObject(UserShape), Obj(m), [], isEmail);
    CreateUserRefinement(m, isEmail);
    UserObjectValid(m, [], isEmail);
    UserObjectAccount(m, [], isEmail);
    ValidIffNoIssues(ZObject(UserShape), Obj(m), [], isEmail);
    assert inner.issues == [];
    assert !PasswordsMatch(inner.value);
  }

  /** The password comparison runs even when field checks failed (a short
      password, a malformed email): the mismatch issue then comes last. */
  lemma MismatchReportedAfterFieldIssues(m: map<string, JsValue>, isEmail: string -> bool)
    requires Parse(ZObject(UserShape), Obj(m), [], isEmail).status != Aborted
    requires Lookup(m, "password") != Lookup(m, "passwordConfirm")
    ensures SafeParse(CreateUserSchema, Obj(m), isEmail) ==
      Failure(Parse(ZObject(UserShape), Obj(m), [], isEmail).issues +
              [Issue(Custom, [Key("passwordConfirm")], Some("Passwords are not the same!"))])
  {
    var inner := Parse(ZObject(UserShape), Obj(m), [], isEmail);
    CreateUserRefinement(m, isEmail);
    UserObjectAccount(m, [], isEmail);
    assert !PasswordsMatch(inner.value);
  }

  /** A name that is missing (or not a string) aborts the body, and its issue
      comes first; only a missing name gets the schema's own message. */
  lemma MissingNameReportedFirst(m: map<string, JsValue>, isEmail: string -> bool)
    requires !Lookup(m, "name").Str?
    ensures var r := SafeParse(CreateUserSchema, Obj(m), isEmail);
      r.Failure? && |r.issues| > 0 &&
      r.issues[0] == Issue(InvalidType, [Key("name")], TypeErrorMessage(Some("Please provide your name"), Lookup(m, "name")))
  {
    UserShapeFields();
    var s := ZObject(UserShape);
    var head := FieldParse(UserShape, 0, m, [], isEmail);
    var root: seq<PathItem> := [];
    assert root + [Key("name")] == [Key("name")];
    NameRule(Lookup(m, "name"), [Key("name")], isEmail);
    assert head == Abort(InvalidType, [Key("name")], TypeErrorMessage(Some("Please provide your name"), Lookup(m, "name")));
    assert ParseFields(s, 0, m, [], isEmail).issues == head.issues + ParseFields(s, 1, m, [], isEmail).issues;
    assert ParseFields(s, 0, m, [], isEmail).status == Aborted;
    CreateUserRefinement(m, isEmail);
  }

  const LoginShape: seq<Field> := [Field("email", EmailSchema), Field("password", PasswordSchema)]

  /** The login body needs a valid email and a password of at least 8
      characters, and nothing else. */
  lemma LoginAccepts(m: map<string, JsValue>, isEmail: string -> bool)
    ensures SafeParse(LoginSchema, Obj(m), isEmail).Success? <==>
      Lookup(m, "email").Str? && isEmail(Lookup(m, "email").s) && IsPassword(Lookup(m, "password"))
  {
    LoginShapeFields();
    var u := LoginShape;
    var root: seq<PathItem> := [];
    FieldsValidIffEachValid(ZObject(u), 0, m, root, isEmail);
    EmailRule(Lookup(m, "email"), root + [Key("email")], isEmail);
    PasswordRule(PasswordSchema, "Please provide a password", None, Lookup(m, "password"),
                 root + [Key("password")], isEmail);
    if Lookup(m, "email").Str? && isEmail(Lookup(m, "email").s) && IsPassword(Lookup(m, "password")) {
      forall k | 0 <= k < 2
        ensures FieldParse(u, k, m, root, isEmail).status == Valid
      {
        assert k == 0 || k == 1;
      }
    } else {
      assert FieldParse(u, 0, m, root, isEmail).status != Valid || FieldParse(u, 1, m, root, isEmail).status != Valid;
    }
  }

  /** An accepted login body keeps only the email, normalised, and the password. */
  lemma LoginOutput(m: map<string, JsValue>, isEmail: string -> bool)
    requires SafeParse(LoginSchema, Obj(m), isEmail).Success?
    ensures var out := SafeParse(LoginSchema, Obj(m), isEmail).data;
      Lookup(m, "email").Str? &&
      out.Obj? && (forall key :: key in out.fields ==> key in ["email", "password"]) &&
      Get(out, "email") == Str(Strings.Trim(Strings.ToLower(Lookup(m, "email").s))) &&
      Get(out, "password") == Lookup(m, "password")
  {
    LoginShapeFields();
    LoginAccepts(m, isEmail);
    var u := LoginShape;
    var root: seq<PathItem> := [];
    var out := Parse(ZObject(u), Obj(m), root, isEmail).value;
    assert Get(out, "email") == Str(Strings.Trim(Strings.ToLower(Lookup(m, "email").s))) by {
      ObjectField(u, m, root, isEmail, 0);
      EmailRule(Lookup(m, "email"), root + [Key("email")], isEmail);
    }
    assert Get(out, "password") == Lookup(m, "password") by {
      ObjectField(u, m, root, isEmail, 1);
      PasswordRule(PasswordSchema, "Please provide a password", None, Lookup(m, "password"),
                   root + [Key("password")], isEmail);
    }
    ObjectStrips(u, m, root, isEmail);
    forall key | key in out.fields
      ensures key in ["email", "password"]
    {
      var k :| 0 <= k < |u| && u[k].key == key;
    }
  }

  /** The two-password shape the reset and update bodies start from. */
  const PasswordPair: seq<Field> := [Field("password", PasswordSchema), Field("passwordConfirm", PasswordConfirmSchema)]

  /** Both passwords of the pair are valid exactly when each is a string of at
      least 8 characters; unless the pair aborts, both come out as given. */
  lemma PasswordPairRule(m: map<string, JsValue>, isEmail: string -> bool)
    ensures Parse(ZObject(PasswordPair), Obj(m), [], isEmail).status == Valid <==>
      IsPassword(Lookup(m, "password")) && IsPassword(Lookup(m, "passwordConfirm"))
    ensures Parse(ZObject(PasswordPair), Obj(m), [], isEmail).status != Aborted ==>
      var out := Parse(ZObject(PasswordPair), Obj(m), [], isEmail).value;
      Get(out, "password") == Lookup(m, "password") && Get(out, "passwordConfirm") == Lookup(m, "passwordConfirm")
  {
    var u := PasswordPair;
    var root: seq<PathItem> := [];
    FieldsValidIffEachValid(ZObject(u), 0, m, root, isEmail);
    PasswordRule(PasswordSchema, "Please provide a password", None, Lookup(m, "password"),
                 root + [Key("password")], isEmail);
    PasswordRule(PasswordConfirmSchema, "Please confirm your password", None, Lookup(m, "passwordConfirm"),
                 root + [Key("passwordConfirm")], isEmail);
    if IsPassword(Lookup(m, "password")) && IsPassword(Lookup(m, "passwordConfirm")) {
      forall k | 0 <= k < 2
        ensures FieldParse(u, k, m, root, isEmail).status == Valid
      {
        assert k == 0 || k == 1;
      }
    } else {
      assert FieldParse(u, 0, m, root, isEmail).status != Valid || FieldParse(u, 1, m, root, isEmail).status != Valid;
    }
    if Parse(ZObject(u), Obj(m), root, isEmail).status != Aborted {
      ObjectField(u, m, root, isEmail, 0);
      ObjectField(u, m, root, isEmail, 1);
    }
  }

  /** The reset body: two passwords of at least 8 characters that are the same. */
  lemma ResetPasswordAccepts(m: map<string, JsValue>, isEmail: string -> bool)
    ensures SafeParse(ResetPasswordSchema, Obj(m), isEmail).Success? <==>
      IsPassword(Lookup(m, "password")) && IsPassword(Lookup(m, "passwordConfirm")) &&
      Lookup(m, "password") == Lookup(m, "passwordConfirm")
  {
    ResetShapeFields();
    PasswordPairRule(m, isEmail);
  }

  const UpdatePasswordShape: seq<Field> :=
    [Field("password", PasswordSchema), Field("passwordConfirm", PasswordConfirmSchema),
     Field("currentPassword", CurrentPasswordSchema)]

  /** The update-password object is valid exactly when all three passwords are
      strings of at least 8 characters. */
  lemma UpdatePasswordObjectRule(m: map<string, JsValue>, isEmail: string -> bool)
    ensures Parse(ZObject(UpdatePasswordShape), Obj(m), [], isEmail).status == Valid <==>
      IsPassword(Lookup(m, "password")) && IsPassword(Lookup(m, "passwordConfirm")) &&
      IsPassword(Lookup(m, "currentPassword"))
  {
    var u := UpdatePasswordShape;
    var root: seq<PathItem> := [];
    FieldsValidIffEachValid(ZObject(u), 0, m, root, isEmail);
    PasswordRule(PasswordSchema, "Please provide a password", None, Lookup(m, "password"),
                 root + [Key("password")], isEmail);
    PasswordRule(PasswordConfirmSchema, "Please confirm your password", None, Lookup(m, "passwordConfirm"),
                 root + [Key("passwordConfirm")], isEmail);
    PasswordRule(CurrentPasswordSchema, "Please provide the current password",
                 Some("Password must be greater than 8 characters"), Lookup(m, "currentPassword"),
                 root + [Key("currentPassword")], isEmail);
    if IsPassword(Lookup(m, "password")) && IsPassword(Lookup(m, "passwordConfirm")) &&
       IsPassword(Lookup(m, "currentPassword")) {
      forall k | 0 <= k < 3
        ensures FieldParse(u, k, m, root, isEmail).status == Valid
      {
        assert k == 0 || k == 1 || k == 2;
      }
    } else {
      assert FieldParse(u, 0, m, root, isEmail).status != Valid || FieldParse(u, 1, m, root, isEmail).status != Valid ||
             FieldParse(u, 2, m, root, isEmail).status != Valid;
    }
  }

  /** Unless the update-password object aborts, both new passwords come out as given. */
  lemma UpdatePasswordObjectOutput(m: map<string, JsValue>, isEmail: string -> bool)
    ensures Parse(ZObject(UpdatePasswordShape), Obj(m), [], isEmail).status != Aborted ==>
      var out := Parse(ZObject(UpdatePasswordShape), Obj(m), [], isEmail).value;
      Get(out, "password") == Lookup(m, "password") && Get(out, "passwordConfirm") == Lookup(m, "passwordConfirm")
  {
    var u := UpdatePasswordShape;
    var root: seq<PathItem> := [];
    if Parse(ZObject(u), Obj(m), root, isEmail).status != Aborted {
      ObjectField(u, m, root, isEmail, 0);
      PasswordRule(PasswordSchema, "Please provide a password", None, Lookup(m, "password"),
                   root + [Key("password")], isEmail);
      ObjectField(u, m, root, isEmail, 1);
      PasswordRule(PasswordConfirmSchema, "Please confirm your password", None, Lookup(m, "passwordConfirm"),
                   root + [Key("passwordConfirm")], isEmail);
    }
  }

  /** The update-password body: the reset body plus a current password of at
      least 8 characters. */
  lemma UpdatePasswordAccepts(m: map<string, JsValue>, isEmail: string -> bool)
    ensures SafeParse(UpdatePasswordSchema, Obj(m), isEmail).Success? <==>
      IsPassword(Lookup(m, "password")) && IsPassword(Lookup(m, "passwordConfirm")) &&
      Lookup(m, "password") == Lookup(m, "passwordConfirm") && IsPassword(Lookup(m, "currentPassword"))
  {
    UpdateShapeFields();
    UpdatePasswordObjectRule(m, isEmail);
    UpdatePasswordObjectOutput(m, isEmail);
  }
}
