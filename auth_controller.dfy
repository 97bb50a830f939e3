/** The authentication handlers: `signup`, `login`, `forgotPassword`,
    `resetPassword` and `updatePassword`, each a transition of the user
    collection that ends in a response or in an error passed to `next`, and
    `createSendToken`, which issues the session token they answer with.

    Each handler is a method over the collection, tied by its postcondition to
    a `...Spec` function of the collection before the request; the properties
    of the account flow are lemmas about those functions. */
module AuthController {

  import opened Wrappers
  import Hex
  import opened UserModel
  import opened Http
  import AuthMiddleware

  const BadCredentials: string := "Incorrect email or password"
  const NoSuchEmail: string := "There is no user with that email addresss"
  const TokenSent: string := "Token send to email"
  const EmailFailed: string := "There was an error sending the email. Try again later!"
  const TokenInvalid: string := "Token is invalid or has expired"
  const NoSuchId: string := "No user found with that id"
  const WrongCurrentPassword: string := "Your current password is wrong"

  /** What a handler leaves behind: its answer, the collection, and the reset
      token sent by email, if one was. */
  datatype Transition = Transition(result: HandlerResult, records: seq<UserRecord>, mailed: Option<string>)

  // ---------------------------------------------------------------------------
  // createSendToken

  /** The response `createSendToken` builds for `user` at time `now`: a session
      token for the user's id issued in the current second, sent both as the
      `jwt` cookie and in the body, with the password left out of the user. */
  function TokenResponse(code: StatusCode, user: UserRecord, now: int, nodeEnv: Option<string>): (res: Response)
    ensures res.code == code
    ensures res.cookie.Some? && res.cookie.value.name == "jwt" && res.cookie.value.httpOnly
    ensures res.cookie.value.secure <==> nodeEnv == Some("production")
    ensures res.body.TokenBody? && res.body.status == "success"
    ensures res.body.token == res.cookie.value.value == Claims(user.id, Some(now / 1000))
    ensures res.body.user.password == None
    ensures res.body.user == user.(password := None)
  {
    var token := Claims(user.id, Some(now / 1000));
    var secure := nodeEnv == Some("production");
    Response(code, Some(Cookie("jwt", token, true, secure)), TokenBody("success", token, user.(password := None)))
  }

  /** `createSendToken(res, user, statusCode)`: also blanks the document's password. */
  method CreateSendToken(user: UserDocument, code: StatusCode, now: int, nodeEnv: Option<string>)
    returns (res: Response)
    modifies user
    ensures res == TokenResponse(code, old(user.rec), now, nodeEnv)
    ensures user.rec == old(user.rec).(password := None)
    ensures user.isNew == old(user.isNew) && user.passwordModified == old(user.passwordModified)
  {
    var token := Claims(user.rec.id, Some(now / 1000));
    var secure := false;
    if nodeEnv == Some("production") {
      secure := true;
    }
    var cookie := Cookie("jwt", token, true, secure);
    user.rec := user.rec.(password := None);
    res := Response(code, Some(cookie), TokenBody("success", token, user.rec));
  }

  /** The handlers that save a changed password all end the same way: the save,
      then the token response with the saved record. */
  function SaveAndRespond(records: seq<UserRecord>, r: UserRecord, isNew: bool, code: StatusCode,
                          now: int, nodeEnv: Option<string>): Transition
    requires IsPlain(r.password)
  {
    match SaveOutcome(records, r, isNew, true, now, true)
    case Err(e) => Transition(Fail(SaveFailed(e)), records, None)
    case Ok(saved) =>
      Transition(Respond(TokenResponse(code, saved, now, nodeEnv)), AfterSave(records, r, isNew, true, now), None)
  }

  // ---------------------------------------------------------------------------
  // signup

  function SignupSpec(records: seq<UserRecord>, id: string, name: string, email: string, password: string,
                      passwordConfirm: string, now: int, nodeEnv: Option<string>): Transition
  {
    SaveAndRespond(records, NewUserRecord(id, name, email, password, passwordConfirm), true, CREATED, now, nodeEnv)
  }

  /** `signup`: `User.create` with only name, email, password and confirmation
      taken from the body; `id` is the ObjectId Mongoose assigns. */
  method Signup(users: UserCollection, id: string, name: string, email: string, password: string,
                passwordConfirm: string, now: int, nodeEnv: Option<string>) returns (result: HandlerResult)
    requires users.Valid()
    modifies users
    ensures users.Valid()
    ensures Transition(result, users.records, None) ==
      SignupSpec(old(users.records), id, name, email, password, passwordConfirm, now, nodeEnv)
  {
    var newUser := new UserDocument.Create(id, name, email, password, passwordConfirm);
    var saved := newUser.Save(users, now, true);
    if saved.Err? {
      return Fail(SaveFailed(saved.error));
    }
    var res := CreateSendToken(newUser, CREATED, now, nodeEnv);
    return Respond(res);
  }

  /** A signup succeeds exactly when the model's validators pass and neither the
      id nor the email is in use; the confirmation is only required to be
      present, not to match. The stored user has the default role, is active,
      holds the digest of the password, no confirmation and no change stamp,
      and is appended after the existing users. */
  lemma SignupStoresDefaults(records: seq<UserRecord>, id: string, name: string, email: string,
                             password: string, passwordConfirm: string, now: int, nodeEnv: Option<string>)
    ensures var t := SignupSpec(records, id, name, email, password, passwordConfirm, now, nodeEnv);
      (t.result.Respond? <==>
         name != "" && email != "" && password != "" && |password| >= PasswordMinLength &&
         passwordConfirm != "" && !IdTaken(records, id) && !EmailTakenByOther(records, email, id)) &&
      (t.result.Respond? ==>
         |t.records| == |records| + 1 && t.records[..|records|] == records &&
         t.records[|records|] == UserRecord(id, name, email, None, "user", Some(Bcrypt(password)),
                                            None, None, None, None, Some(true)) &&
         t.result.response.code == CREATED &&
         t.result.response.body.user == t.records[|records|].(password := None)) &&
      (t.result.Fail? ==> t.records == records && t.result.failure.SaveFailed?)
  {
    var r := NewUserRecord(id, name, email, password, passwordConfirm);
    assert r.role in Roles;
    assert PasswordLength(r.password.value) == |password|;
  }

  // ---------------------------------------------------------------------------
  // login

  function LoginSpec(records: seq<UserRecord>, email: string, password: string, now: int,
                     nodeEnv: Option<string>): Transition
  {
    match Find(records, [EmailEquals(email)])
    case None => Transition(Fail(Operational(BadCredentials, UNAUTHENTICATED)), records, None)
    case Some(u) =>
      if !BcryptCompare(password, u.password) then
        Transition(Fail(Operational(BadCredentials, UNAUTHENTICATED)), records, None)
      else
        Transition(Respond(TokenResponse(OK, u, now, nodeEnv)), records, None)
  }

  /** `login`: the first visible user with the email, and the password compared
      with its digest. Nothing is written. */
  method Login(users: UserCollection, email: string, password: string, now: int, nodeEnv: Option<string>)
    returns (result: HandlerResult)
    requires users.Valid()
    ensures Transition(result, users.records, None) == LoginSpec(users.records, email, password, now, nodeEnv)
  {
    var query := new FindQuery([EmailEquals(email)]);
    query.PreFind();
    var user := query.Exec(users.records);
    if user.None? || !BcryptCompare(password, user.value.password) {
      return Fail(Operational(BadCredentials, UNAUTHENTICATED));
    }
    var doc := new UserDocument.Hydrate(user.value);
    var res := CreateSendToken(doc, OK, now, nodeEnv);
    return Respond(res);
  }

  /** Login succeeds exactly for a visible user holding the digest of the
      presented password, and answers with that user's token; an unknown email
      and a wrong password get the very same UNAUTHENTICATED error, so the answer does not tell
      which one it was. */
  lemma LoginAcceptsOnlyTheStoredPassword(records: seq<UserRecord>, email: string, password: string,
                                          now: int, nodeEnv: Option<string>)
    requires StoreInvariant(records)
    ensures var t := LoginSpec(records, email, password, now, nodeEnv);
      t.records == records &&
      (t.result.Respond? <==>
         exists i :: 0 <= i < |records| && records[i].email == email && records[i].active != Some(false) &&
                     records[i].password == Some(Bcrypt(password))) &&
      (t.result.Respond? ==> exists i :: 0 <= i < |records| && records[i].email == email &&
                                         t.result.response == TokenResponse(OK, records[i], now, nodeEnv)) &&
      (t.result.Fail? ==> t.result.failure == Operational(BadCredentials, UNAUTHENTICATED))
  {
    var f := [EmailEquals(email)];
    FindHidesOnlyDeactivated(records, f);
    var found := Find(records, f);
    if found.Some? {
      assert Satisfies(found.value, f[0]);
    }
    if exists i :: 0 <= i < |records| && records[i].email == email && records[i].active != Some(false) &&
                   records[i].password == Some(Bcrypt(password)) {
      var i :| 0 <= i < |records| && records[i].email == email && records[i].active != Some(false) &&
               records[i].password == Some(Bcrypt(password));
      assert SatisfiesAll(records[i], f) by {
        assert Satisfies(records[i], f[0]);
      }
      var j :| 0 <= j < |records| && records[j] == found.value;
      assert j == i;
    }
  }

  // ---------------------------------------------------------------------------
  // forgotPassword

  /** The user after `createPasswordResetToken` at `now` with token `token`. */
  function WithResetToken(u: UserRecord, token: string, now: int): UserRecord {
    u.(passwordResetToken := Some(Sha256Hex(token)), passwordResetExpires := Some(now + ResetTokenLifetime))
  }

  /** The user after both reset fields are set to undefined. */
  function WithoutResetToken(u: UserRecord): UserRecord {
    u.(passwordResetToken := None, passwordResetExpires := None)
  }

  function ForgotPasswordSpec(records: seq<UserRecord>, email: string, random: seq<Hex.byte>,
                              emailDelivered: bool, now: int): Transition
  {
    match Find(records, [EmailEquals(email)])
    case None => Transition(Fail(Operational(NoSuchEmail, NOT_FOUND)), records, None)
    case Some(u) =>
      var token := Hex.Encode(random);
      if emailDelivered then
        Transition(Respond(Response(OK, None, MessageBody("success", TokenSent))),
                   ReplaceById(records, WithResetToken(u, token, now)), Some(token))
      else
        Transition(Fail(Operational(EmailFailed, INTERNAL_SERVER_ERROR)),
                   ReplaceById(records, WithoutResetToken(u)), None)
  }

  /** Step 2 of `forgotPassword`: a reset token for a stored user, kept by a
      save without validation whose result is never awaited. The user is
      written back under its own id with its own email, so the save succeeds. */
  method IssueResetToken(users: UserCollection, u: UserRecord, random: seq<Hex.byte>, now: int)
    returns (user: UserDocument, resetToken: string)
    requires users.Valid() && |random| == 32 && u in users.records
    modifies users
    ensures fresh(user) && users.Valid() && user.Valid() && !user.isNew && !user.passwordModified
    ensures resetToken == Hex.Encode(random)
    ensures user.rec == WithResetToken(u, resetToken, now)
    ensures users.records == ReplaceById(old(users.records), user.rec)
  {
    ghost var i :| 0 <= i < |users.records| && users.records[i] == u;
    user := new UserDocument.Hydrate(u);
    resetToken := user.CreatePasswordResetToken(now, random);
    WriteBackSucceeds(users.records, i, user.rec, now);
    var _ := user.Save(users, now, false);
  }

  /** Clearing the reset fields of a user just written back under its own id,
      and saving again, succeeds and leaves the cleared user in place of the
      original. */
  lemma ClearAfterIssue(before: seq<UserRecord>, i: nat, issued: UserRecord, now: int)
    requires StoreInvariant(before) && i < |before| && !IsPlain(issued.password)
    requires issued.id == before[i].id && issued.email == before[i].email
    ensures var written := ReplaceById(before, issued);
      var cleared := WithoutResetToken(issued);
      StoreInvariant(written) &&
      SaveOutcome(written, cleared, false, false, now, false) == Ok(cleared) &&
      AfterSave(written, cleared, false, false, now) == ReplaceById(before, cleared)
  {
    var written := ReplaceById(before, issued);
    WriteBackSucceeds(before, i, issued, now);
    assert written[i] == issued;
    WriteBackSucceeds(written, i, WithoutResetToken(issued), now);
    ReplaceTwice(before, issued, WithoutResetToken(issued));
  }

  /** The rollback in `forgotPassword` when the email cannot be sent: both
      reset fields are cleared and the user is saved again, which overwrites the
      token just issued. */
  method ClearResetToken(users: UserCollection, user: UserDocument, ghost before: seq<UserRecord>,
                         ghost i: nat, now: int)
    requires users.Valid() && user.Valid() && !user.isNew && !user.passwordModified
    requires StoreInvariant(before) && i < |before|
    requires user.rec.id == before[i].id && user.rec.email == before[i].email
    requires users.records == ReplaceById(before, user.rec)
    modifies users, user
    ensures users.Valid()
    ensures users.records == ReplaceById(before, WithoutResetToken(old(user.rec)))
    ensures user.rec == WithoutResetToken(old(user.rec)) && !user.isNew && !user.passwordModified
  {
    ClearAfterIssue(before, i, user.rec, now);
    user.rec := user.rec.(passwordResetExpires := None);
    user.rec := user.rec.(passwordResetToken := None);
    var cleared := user.Save(users, now, false);
  }

  /** `forgotPassword`: `random` is what `crypto.randomBytes(32)` yields and
      `emailDelivered` whether `sendEmail` resolved. The save that rolls the
      token back is awaited; it writes the same user back, so it cannot fail. */
  method ForgotPassword(users: UserCollection, email: string, random: seq<Hex.byte>, emailDelivered: bool,
                        now: int) returns (result: HandlerResult, mailed: Option<string>)
    requires users.Valid() && |random| == 32
    modifies users
    ensures users.Valid()
    ensures Transition(result, users.records, mailed) == ForgotPasswordSpec(old(users.records), email, random, emailDelivered, now)
  {
    var query := new FindQuery([EmailEquals(email)]);
    query.PreFind();
    var found := query.Exec(users.records);
    if found.None? {
      return Fail(Operational(NoSuchEmail, NOT_FOUND)), None;
    }
    var user, resetToken := IssueResetToken(users, found.value, random, now);

    if emailDelivered {
      return Respond(Response(OK, None, MessageBody("success", TokenSent))), Some(resetToken);
    }
    ghost var i :| 0 <= i < |old(users.records)| && old(users.records)[i] == found.value;
    ClearResetToken(users, user, old(users.records), i, now);
    return Fail(Operational(EmailFailed, INTERNAL_SERVER_ERROR)), None;
  }

  /** Writing a stored record back unchanged leaves the collection as it was. */
  lemma ReplaceWithStored(records: seq<UserRecord>, i: nat)
    requires StoreInvariant(records) && i < |records|
    ensures ReplaceById(records, records[i]) == records
  {
    var s := ReplaceById(records, records[i]);
    forall j | 0 <= j < |records| ensures s[j] == records[j] {
    }
  }

  /** An unknown email changes nothing. A delivered email carries the token whose
      digest the user now holds, next to an expiry ten minutes on. When delivery
      fails both reset fields end up cleared; for a user who held no reset
      token before, that restores the collection exactly. */
  lemma ForgotPasswordOutcomes(records: seq<UserRecord>, email: string, random: seq<Hex.byte>,
                               emailDelivered: bool, now: int)
    requires StoreInvariant(records) && |random| == 32
    ensures var t := ForgotPasswordSpec(records, email, random, emailDelivered, now);
      var found := Find(records, [EmailEquals(email)]);
      (found.None? ==> t.records == records && t.mailed == None &&
                       t.result == Fail(Operational(NoSuchEmail, NOT_FOUND))) &&
      (found.Some? && emailDelivered ==>
         t.mailed.Some? && |t.mailed.value| == 64 && t.result.Respond? && t.result.response.code == OK &&
         exists i :: 0 <= i < |records| && records[i] == found.value && records[i].email == email &&
                     t.records == records[i := WithResetToken(records[i], t.mailed.value, now)]) &&
      (found.Some? && !emailDelivered ==>
         t.mailed == None && t.result == Fail(Operational(EmailFailed, INTERNAL_SERVER_ERROR)) &&
         exists i :: 0 <= i < |records| && records[i] == found.value && records[i].email == email &&
                     t.records == records[i := WithoutResetToken(records[i])] &&
                     (records[i].passwordResetToken == None && records[i].passwordResetExpires == None ==>
                        t.records == records))
  {
    var f := [EmailEquals(email)];
    FindHidesOnlyDeactivated(records, f);
    var found := Find(records, f);
    if found.Some? {
      assert Satisfies(found.value, f[0]);
      var i :| 0 <= i < |records| && records[i] == found.value;
      var u := records[i];
      var r := if emailDelivered then WithResetToken(u, Hex.Encode(random), now) else WithoutResetToken(u);
      var s := ReplaceById(records, r);
      assert s == records[i := r] by {
        forall j | 0 <= j < |records| ensures s[j] == records[i := r][j] {
        }
      }
      if !emailDelivered && u.passwordResetToken == None && u.passwordResetExpires == None {
        assert r == u;
      }
    }
  }

  // ---------------------------------------------------------------------------
  // resetPassword

  /** The query `resetPassword` runs: the stored digest of the presented token
      and an expiry strictly after now. */
  function ResetFilter(token: string, now: int): seq<Condition> {
    [ResetTokenEquals(Sha256Hex(token)), ResetExpiresAfter(now)]
  }

  /** The user after the handler's four assignments. */
  function ResetRecord(u: UserRecord, password: string, passwordConfirm: string): UserRecord {
    u.(password := Some(Plain(password)), passwordConfirm := Some(passwordConfirm),
       passwordResetToken := None, passwordResetExpires := None)
  }

  function ResetPasswordSpec(records: seq<UserRecord>, token: string, password: string, passwordConfirm: string,
                             now: int, nodeEnv: Option<string>): Transition
  {
    match Find(records, ResetFilter(token, now))
    case None => Transition(Fail(Operational(TokenInvalid, BAD_REQUEST)), records, None)
    case Some(u) => SaveAndRespond(records, ResetRecord(u, password, passwordConfirm), false, OK, now, nodeEnv)
  }

  /** `resetPassword`: `token` is the route parameter. */
  method ResetPassword(users: UserCollection, token: string, password: string, passwordConfirm: string,
                       now: int, nodeEnv: Option<string>) returns (result: HandlerResult)
    requires users.Valid()
    modifies users
    ensures users.Valid()
    ensures Transition(result, users.records, None) ==
      ResetPasswordSpec(old(users.records), token, password, passwordConfirm, now, nodeEnv)
  {
    var hashedToken := Sha256Hex(token);
    var query := new FindQuery([ResetTokenEquals(hashedToken), ResetExpiresAfter(now)]);
    query.PreFind();
    var found := query.Exec(users.records);
    if found.None? {
      return Fail(Operational(TokenInvalid, BAD_REQUEST));
    }
    var user := new UserDocument.Hydrate(found.value);
    user.AssignPassword(password);
    user.rec := user.rec.(passwordConfirm := Some(passwordConfirm));
    user.rec := user.rec.(passwordResetToken := None);
    user.rec := user.rec.(passwordResetExpires := None);
    var saved := user.Save(users, now, true);
    if saved.Err? {
      return Fail(SaveFailed(saved.error));
    }
    var res := CreateSendToken(user, OK, now, nodeEnv);
    return Respond(res);
  }

  /** No record other than one holds the digest. */
  predicate DigestHeldByAtMostOne(records: seq<UserRecord>, d: Digest) {
    forall i, j :: 0 <= i < j < |records| ==>
      !(records[i].passwordResetToken == Some(d) && records[j].passwordResetToken == Some(d))
  }

  /** After user `i` alone is given the digest of `token`, the reset query finds
      that user strictly before the expiry and nobody from then on. */
  lemma {:induction false} ResetQueryFindsHolder(records: seq<UserRecord>, i: nat, token: string, now: int, later: int)
    requires StoreInvariant(records) && i < |records| && records[i].active != Some(false)
    requires forall j :: 0 <= j < |records| ==> records[j].passwordResetToken != Some(Sha256Hex(token))
    ensures var v := WithResetToken(records[i], token, now);
      Find(ReplaceById(records, v), ResetFilter(token, later)) ==
        if later < now + ResetTokenLifetime then Some(v) else None
  {
    var v := WithResetToken(records[i], token, now);
    var s := ReplaceById(records, v);
    var f := ResetFilter(token, later);
    FindHidesOnlyDeactivated(s, f);
    assert s[i] == v;
    forall j | 0 <= j < |s| && j != i ensures !SatisfiesAll(s[j], f) {
      assert s[j] == records[j];
      assert !Satisfies(s[j], f[0]);
    }
    if later < now + ResetTokenLifetime {
      assert SatisfiesAll(s[i], f) by {
        assert Satisfies(s[i], f[0]) && Satisfies(s[i], f[1]);
      }
      var k :| 0 <= k < |s| && s[k] == Find(s, f).value;
      assert k == i;
    } else {
      assert !Satisfies(s[i], f[1]);
    }
  }

  /** A token issued by `forgotPassword` and delivered opens `resetPassword`
      for the user it was issued to, strictly before ten minutes have passed
      and not after, provided no user held its digest before. */
  lemma IssuedTokenOpensReset(records: seq<UserRecord>, email: string, random: seq<Hex.byte>, now: int,
                              later: int, password: string, passwordConfirm: string, nodeEnv: Option<string>)
    requires StoreInvariant(records) && |random| == 32
    requires Find(records, [EmailEquals(email)]).Some?
    requires forall j :: 0 <= j < |records| ==>
               records[j].passwordResetToken != Some(Sha256Hex(Hex.Encode(random)))
    ensures var issued := ForgotPasswordSpec(records, email, random, true, now);
      var u := Find(records, [EmailEquals(email)]).value;
      issued.mailed.Some? &&
      Find(issued.records, ResetFilter(issued.mailed.value, later)) ==
        (if later < now + ResetTokenLifetime then Some(WithResetToken(u, issued.mailed.value, now)) else None) &&
      (later >= now + ResetTokenLifetime ==>
         ResetPasswordSpec(issued.records, issued.mailed.value, password, passwordConfirm, later, nodeEnv) ==
         Transition(Fail(Operational(TokenInvalid, BAD_REQUEST)), issued.records, None))
  {
    var f0 := [EmailEquals(email)];
    FindHidesOnlyDeactivated(records, f0);
    var u := Find(records, f0).value;
    var i :| 0 <= i < |records| && records[i] == u;
    ResetQueryFindsHolder(records, i, Hex.Encode(random), now, later);
  }

  /** A reset token works once: after a successful reset the same token finds
      no user, at any later time, as long as it was the only user holding that
      digest. */
  lemma ResetTokenSingleUse(records: seq<UserRecord>, token: string, password: string, passwordConfirm: string,
                            now: int, later: int, password2: string, passwordConfirm2: string,
                            nodeEnv: Option<string>)
    requires StoreInvariant(records) && DigestHeldByAtMostOne(records, Sha256Hex(token))
    requires ResetPasswordSpec(records, token, password, passwordConfirm, now, nodeEnv).result.Respond?
    ensures var after := ResetPasswordSpec(records, token, password, passwordConfirm, now, nodeEnv).records;
      Find(after, ResetFilter(token, later)) == None &&
      ResetPasswordSpec(after, token, password2, passwordConfirm2, later, nodeEnv) ==
        Transition(Fail(Operational(TokenInvalid, BAD_REQUEST)), after, None)
  {
    var d := Sha256Hex(token);
    var f := ResetFilter(token, now);
    var u := Find(records, f).value;
    assert SatisfiesAll(u, f) && u in records by {
      FindHidesOnlyDeactivated(records, f);
    }
    assert Satisfies(u, f[0]);
    var i :| 0 <= i < |records| && records[i] == u;
    var saved := AfterSaveHooks(ResetRecord(u, password, passwordConfirm), false, true, now);
    var after := ReplaceById(records, saved);
    ReplaceStored(records, i, saved);
    forall j | 0 <= j < |after| ensures after[j].passwordResetToken != Some(d) {
      if j != i {
        assert records[i].passwordResetToken == Some(d);
      }
    }
    NoHolderFindsNothing(after, token, later);
  }

  /** When no user holds the digest of `token`, the reset query finds nobody. */
  lemma NoHolderFindsNothing(records: seq<UserRecord>, token: string, now: int)
    requires forall j :: 0 <= j < |records| ==> records[j].passwordResetToken != Some(Sha256Hex(token))
    ensures Find(records, ResetFilter(token, now)) == None
  {
    var f := ResetFilter(token, now);
    FindHidesOnlyDeactivated(records, f);
    forall j | 0 <= j < |records| ensures !SatisfiesAll(records[j], f) {
      assert !Satisfies(records[j], f[0]);
    }
  }

  // ---------------------------------------------------------------------------
  // Sessions after a password change

  /** After a save that changes the password of a stored, active user at
      `now >= 1000`, the gate refuses a token for that user exactly when it was
      issued two or more whole seconds before `now`, and lets any other one
      through with the saved user attached. */
  lemma PasswordSaveRevokesOlderTokens(records: seq<UserRecord>, i: nat, r: UserRecord, now: int,
                                       req: AuthMiddleware.Request,
                                       verify: string -> Result<Claims, JwtError>, iat: int)
    requires StoreInvariant(records) && i < |records|
    requires r.id == records[i].id && r.active != Some(false) && IsPlain(r.password)
    requires SaveSucceeds(records, r, false, true, now, true)
    requires now >= ChangeStampOffset
    requires AuthMiddleware.ExtractToken(req).Ok?
    requires verify(AuthMiddleware.ExtractToken(req).value) == Ok(Claims(r.id, Some(iat)))
    ensures var after := AfterSave(records, r, false, true, now);
      AuthMiddleware.Authenticate(req, verify, after) ==
        if iat < now / 1000 - 1 then
          AuthMiddleware.NextError(Operational(AuthMiddleware.PasswordChanged, UNAUTHENTICATED))
        else
          AuthMiddleware.Next(req.(userId := Some(r.id), user := Some(AfterSaveHooks(r, false, true, now))))
  {
    var saved := AfterSaveHooks(r, false, true, now);
    var after := ReplaceById(records, saved);
    ReplaceKeepsInvariant(records, saved);
    assert after[i] == saved;
    FindByUniqueId(after, i);
    StaleWindow(saved, now, iat);
  }

  /** A successful reset ends every session whose token predates the second
      before the reset, while the token it answers with is accepted. */
  lemma ResetEndsOlderSessions(records: seq<UserRecord>, token: string, password: string, passwordConfirm: string,
                               now: int, nodeEnv: Option<string>, req: AuthMiddleware.Request,
                               verify: string -> Result<Claims, JwtError>, iat: int)
    requires StoreInvariant(records) && now >= ChangeStampOffset
    requires AuthMiddleware.ExtractToken(req).Ok?
    ensures var t := ResetPasswordSpec(records, token, password, passwordConfirm, now, nodeEnv);
      t.result.Respond? ==>
      var issued := t.result.response.body.token;
      var id := issued.id;
      (verify(AuthMiddleware.ExtractToken(req).value) == Ok(Claims(id, Some(iat))) ==>
        (AuthMiddleware.Authenticate(req, verify, t.records).NextError? <==> iat < now / 1000 - 1)) &&
      (verify(AuthMiddleware.ExtractToken(req).value) == Ok(issued) ==>
        AuthMiddleware.Authenticate(req, verify, t.records).Next?)
  {
    if ResetPasswordSpec(records, token, password, passwordConfirm, now, nodeEnv).result.Respond? {
      var f := ResetFilter(token, now);
      FindHidesOnlyDeactivated(records, f);
      var u := Find(records, f).value;
      var i :| 0 <= i < |records| && records[i] == u;
      var r := ResetRecord(u, password, passwordConfirm);
      var id := u.id;
      if verify(AuthMiddleware.ExtractToken(req).value) == Ok(Claims(id, Some(iat))) {
        PasswordSaveRevokesOlderTokens(records, i, r, now, req, verify, iat);
      }
      if verify(AuthMiddleware.ExtractToken(req).value) == Ok(Claims(id, Some(now / 1000))) {
        PasswordSaveRevokesOlderTokens(records, i, r, now, req, verify, now / 1000);
      }
    }
  }

  // ---------------------------------------------------------------------------
  // updatePassword

  /** `findById(req.headers.userId)`; a missing id matches nobody. */
  function FindById(records: seq<UserRecord>, userId: Option<string>): Option<UserRecord> {
    match userId
    case None => None
    case Some(id) => Find(records, [IdEquals(id)])
  }

  /** The user after the handler's two assignments. */
  function WithNewPassword(u: UserRecord, password: string, passwordConfirm: string): UserRecord {
    u.(password := Some(Plain(password)), passwordConfirm := Some(passwordConfirm))
  }

  /** The value a handler tests for truthiness: a settled boolean, or a Promise
      that was never awaited (an object, hence always truthy). */
  datatype CheckValue = Settled(b: bool) | PendingPromise(resolvesTo: bool)

  predicate Truthy(v: CheckValue) {
    match v
    case Settled(b) => b
    case PendingPromise(_) => true
  }

  /** The current-password check as written: `user.correctPassword(...)`
      without `await`, called on the new password from `req.body.password`. */
  function AsWrittenCheck(password: string, currentPassword: string, stored: Option<StoredPassword>): CheckValue {
    PendingPromise(BcryptCompare(password, stored))
  }

  /** The current-password check as intended: the comparison of the current
      password, awaited. */
  function IntendedCheck(password: string, currentPassword: string, stored: Option<StoredPassword>): CheckValue {
    Settled(BcryptCompare(currentPassword, stored))
  }

  /** `updatePassword` as written: the check never rejects, so any request for
      a visible user proceeds to the save. */
  function UpdatePasswordSpec(records: seq<UserRecord>, userId: Option<string>, password: string,
                              passwordConfirm: string, currentPassword: string, now: int,
                              nodeEnv: Option<string>): Transition
  {
    match FindById(records, userId)
    case None => Transition(Fail(Operational(NoSuchId, NOT_FOUND)), records, None)
    case Some(u) =>
      if !Truthy(AsWrittenCheck(password, currentPassword, u.password)) then
        Transition(Fail(Operational(WrongCurrentPassword, BAD_REQUEST)), records, None)
      else
        SaveAndRespond(records, WithNewPassword(u, password, passwordConfirm), false, OK, now, nodeEnv)
  }

  /** `updatePassword` with the check awaited on `currentPassword`. */
  function UpdatePasswordCheckedSpec(records: seq<UserRecord>, userId: Option<string>, password: string,
                                     passwordConfirm: string, currentPassword: string, now: int,
                                     nodeEnv: Option<string>): Transition
  {
    match FindById(records, userId)
    case None => Transition(Fail(Operational(NoSuchId, NOT_FOUND)), records, None)
    case Some(u) =>
      if !Truthy(IntendedCheck(password, currentPassword, u.password)) then
        Transition(Fail(Operational(WrongCurrentPassword, BAD_REQUEST)), records, None)
      else
        SaveAndRespond(records, WithNewPassword(u, password, passwordConfirm), false, OK, now, nodeEnv)
  }

  /** `updatePassword` as written; `userId` is what the authentication gate put
      in `req.headers.userId`. */
  method UpdatePassword(users: UserCollection, userId: Option<string>, password: string, passwordConfirm: string,
                        currentPassword: string, now: int, nodeEnv: Option<string>) returns (result: HandlerResult)
    requires users.Valid()
    modifies users
    ensures users.Valid()
    ensures Transition(result, users.records, None) ==
      UpdatePasswordSpec(old(users.records), userId, password, passwordConfirm, currentPassword, now, nodeEnv)
  {
    var found: Option<UserRecord> := None;
    if userId.Some? {
      var query := new FindQuery([IdEquals(userId.value)]);
      query.PreFind();
      found := query.Exec(users.records);
    }
    if found.None? {
      return Fail(Operational(NoSuchId, NOT_FOUND));
    }
    var user := new UserDocument.Hydrate(found.value);
    var check := AsWrittenCheck(password, currentPassword, user.rec.password);
    if !Truthy(check) {
      return Fail(Operational(WrongCurrentPassword, BAD_REQUEST));
    }
    user.AssignPassword(password);
    user.rec := user.rec.(passwordConfirm := Some(passwordConfirm));
    var saved := user.Save(users, now, true);
    if saved.Err? {
      return Fail(SaveFailed(saved.error));
    }
    var res := CreateSendToken(user, OK, now, nodeEnv);
    return Respond(res);
  }

  /** `updatePassword` with the intended check. */
  method UpdatePasswordChecked(users: UserCollection, userId: Option<string>, password: string,
                               passwordConfirm: string, currentPassword: string, now: int,
                               nodeEnv: Option<string>) returns (result: HandlerResult)
    requires users.Valid()
    modifies users
    ensures users.Valid()
    ensures Transition(result, users.records, None) ==
      UpdatePasswordCheckedSpec(old(users.records), userId, password, passwordConfirm, currentPassword, now, nodeEnv)
  {
    var found: Option<UserRecord> := None;
    if userId.Some? {
      var query := new FindQuery([IdEquals(userId.value)]);
      query.PreFind();
      found := query.Exec(users.records);
    }
    if found.None? {
      return Fail(Operational(NoSuchId, NOT_FOUND));
    }
    var user := new UserDocument.Hydrate(found.value);
    var check := IntendedCheck(password, currentPassword, user.rec.password);
    if !Truthy(check) {
      return Fail(Operational(WrongCurrentPassword, BAD_REQUEST));
    }
    user.AssignPassword(password);
    user.rec := user.rec.(passwordConfirm := Some(passwordConfirm));
    var saved := user.Save(users, now, true);
    if saved.Err? {
      return Fail(SaveFailed(saved.error));
    }
    var res := CreateSendToken(user, OK, now, nodeEnv);
    return Respond(res);
  }

  /** As written, the outcome does not depend on the current password at all:
      the wrong-password answer is never given. */
  lemma AsWrittenIgnoresCurrentPassword(records: seq<UserRecord>, userId: Option<string>, password: string,
                                        passwordConfirm: string, current1: string, current2: string, now: int,
                                        nodeEnv: Option<string>)
    ensures UpdatePasswordSpec(records, userId, password, passwordConfirm, current1, now, nodeEnv) ==
            UpdatePasswordSpec(records, userId, password, passwordConfirm, current2, now, nodeEnv)
    ensures UpdatePasswordSpec(records, userId, password, passwordConfirm, current1, now, nodeEnv).result !=
            Fail(Operational(WrongCurrentPassword, BAD_REQUEST))
  {
  }

  /** A user "ana" whose password is "oldsecret1" can have it replaced by
      someone who sends a wrong current password: the handler as written
      answers OK with a new session, the intended one refuses with BAD_REQUEST. */
  lemma WrongCurrentPasswordAccepted()
    ensures var ana := UserRecord("ana", "Ana", "ana@example.com", None, "user", Some(Bcrypt("oldsecret1")),
                                  None, None, None, None, Some(true));
      var asWritten := UpdatePasswordSpec([ana], Some("ana"), "newsecret1", "newsecret1", "wrongguess", 5000, None);
      var intended := UpdatePasswordCheckedSpec([ana], Some("ana"), "newsecret1", "newsecret1", "wrongguess", 5000, None);
      asWritten.result.Respond? && asWritten.result.response.code == OK &&
      asWritten.records[0].password == Some(Bcrypt("newsecret1")) &&
      intended == Transition(Fail(Operational(WrongCurrentPassword, BAD_REQUEST)), [ana], None)
  {
    var ana := UserRecord("ana", "Ana", "ana@example.com", None, "user", Some(Bcrypt("oldsecret1")),
                          None, None, None, None, Some(true));
    FindByUniqueId([ana], 0);
    var r := WithNewPassword(ana, "newsecret1", "newsecret1");
    assert r.role in Roles;
    assert PasswordLength(r.password.value) == |"newsecret1"|;
    assert ValidationErrors(r) == [];
    assert IdTaken([ana], r.id);
  }

  /** With the intended check, a password is only replaced by a caller who
      knows the current one, and a wrong current password changes nothing. */
  lemma CheckedUpdateNeedsCurrentPassword(records: seq<UserRecord>, userId: Option<string>, password: string,
                                          passwordConfirm: string, currentPassword: string, now: int,
                                          nodeEnv: Option<string>)
    ensures var t := UpdatePasswordCheckedSpec(records, userId, password, passwordConfirm, currentPassword, now, nodeEnv);
      var found := FindById(records, userId);
      (found.None? ==> t == Transition(Fail(Operational(NoSuchId, NOT_FOUND)), records, None)) &&
      (found.Some? && found.value.password != Some(Bcrypt(currentPassword)) ==>
         t == Transition(Fail(Operational(WrongCurrentPassword, BAD_REQUEST)), records, None)) &&
      (t.result.Respond? ==> found.Some? && found.value.password == Some(Bcrypt(currentPassword)))
  {
  }

  /** A successful password update, as written or as intended, stores the
      digest of the new password, drops the confirmation and stamps the change
      one second before `now`; every other field and every other user is left
      as it was. */
  lemma UpdateStoresNewPassword(records: seq<UserRecord>, userId: Option<string>, password: string,
                                passwordConfirm: string, currentPassword: string, now: int, nodeEnv: Option<string>)
    requires StoreInvariant(records)
    ensures var t := UpdatePasswordSpec(records, userId, password, passwordConfirm, currentPassword, now, nodeEnv);
      t.result.Respond? ==>
        userId.Some? &&
        exists i :: 0 <= i < |records| && records[i].id == userId.value &&
          t.records == records[i := records[i].(password := Some(Bcrypt(password)), passwordConfirm := None,
                                                passwordChangedAt := Some(now - ChangeStampOffset))]
  {
    var t := UpdatePasswordSpec(records, userId, password, passwordConfirm, currentPassword, now, nodeEnv);
    if t.result.Respond? {
      var f := [IdEquals(userId.value)];
      var u := Find(records, f).value;
      var i: nat;
      assert SatisfiesAll(u, f) && u in records by {
        FindHidesOnlyDeactivated(records, f);
      }
      assert Satisfies(u, f[0]);
      i :| 0 <= i < |records| && records[i] == u;
      var r := WithNewPassword(u, password, passwordConfirm);
      var saved := AfterSaveHooks(r, false, true, now);
      assert t.records == ReplaceById(records, saved);
      ReplaceStored(records, i, saved);
    }
  }
}
