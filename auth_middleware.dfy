/** `authenticateJwt`: takes the session token from the `jwt` cookie or from an
    `Authorization: Bearer` header, verifies it, loads the user it names and
    refuses tokens issued before the user's last password change. The steps run
    in that order and the first failure decides the outcome. */
module AuthMiddleware {

  import opened Wrappers
  import opened Strings
  import opened UserModel
  import opened Http

  /** The parts of an Express request the gate reads and writes. */
  datatype Request = Request(
    jwtCookie: Option<string>,        // req.cookies.jwt
    authorization: Option<string>,    // req.headers.authorization
    userId: Option<string>,           // req.headers.userId
    user: Option<UserRecord>)         // req.user

  /** What the middleware does with `next`: call it plainly with the (possibly
      updated) request, or call it with an error. */
  datatype GateOutcome = Next(req: Request) | NextError(failure: Failure)

  const BearerPrefix: string := "Bearer "
  const MissingHeader: string := "Invalid or missing authorization header"
  const NotLoggedIn: string := "You are not logged in! Please log in to get access."
  const UserGone: string := "The user belonging to this token does no longer exist."
  const PasswordChanged: string := "User recently changed password! Please log in again."

  /** JavaScript truthiness of an optional string. */
  predicate Truthy(s: Option<string>) {
    s.Some? && s.value != ""
  }

  /** The first piece of `s` split on `sep`, and the rest. */
  lemma {:induction false} SplitFirst(s: string, sep: char, k: nat)
    requires k < |s| && s[k] == sep && sep !in s[..k]
    ensures |Split(s, sep)| >= 2
    ensures Split(s, sep)[0] == s[..k]
    ensures Split(s, sep)[1..] == Split(s[k + 1..], sep)
  {
    assert sep in s;
    var i := IndexOf(s, sep);
    assert i == k;
  }

  /** `authHeader.split(" ")[1]` for a header that starts with "Bearer ". */
  function BearerToken(header: string): (token: string)
    requires StartsWith(header, BearerPrefix)
    ensures ' ' !in token
    ensures StartsWith(header[|BearerPrefix|..], token)
    ensures |token| < |header| - |BearerPrefix| ==> header[|BearerPrefix| + |token|] == ' '
  {
    SplitFirst(header, ' ', 6);
    FirstPiece(header[7..], ' ');
    Split(header, ' ')[1]
  }

  /** The first piece of a split is a separator-free prefix, followed by a
      separator unless it is the whole string. */
  lemma FirstPiece(s: string, sep: char)
    ensures sep !in Split(s, sep)[0]
    ensures StartsWith(s, Split(s, sep)[0])
    ensures |Split(s, sep)[0]| < |s| ==> s[|Split(s, sep)[0]|] == sep
  {
    JoinSplit(s, sep);
    var p := Split(s, sep);
    if |p| > 1 {
      assert s == p[0] + [sep] + Join(p[1..], sep);
    }
  }

  /** A header "Bearer " followed by a space-free token yields that token. */
  lemma BearerTokenOfWellFormedHeader(t: string)
    requires ' ' !in t
    ensures BearerToken(BearerPrefix + t) == t
  {
    var h := BearerPrefix + t;
    assert h[7..] == t;
    SplitJoin([t], ' ');
  }

  /** The token is empty exactly when nothing, or another space, follows "Bearer ". */
  lemma EmptyBearerToken(header: string)
    requires StartsWith(header, BearerPrefix)
    ensures BearerToken(header) == "" <==> |header| == |BearerPrefix| || header[|BearerPrefix|] == ' '
  {
  }

  /** Step 1: the token from the cookie when it is truthy, else from the header. */
  function ExtractToken(req: Request): (r: Result<string, Failure>)
    ensures Truthy(req.jwtCookie) ==> r == Ok(req.jwtCookie.value)
    ensures !Truthy(req.jwtCookie) && !(Truthy(req.authorization) && StartsWith(req.authorization.value, BearerPrefix)) ==>
      r == Err(Operational(MissingHeader, UNAUTHENTICATED))
    ensures r.Ok? ==> r.value != ""
    ensures r.Ok? && !Truthy(req.jwtCookie) ==> ' ' !in r.value && r.value == BearerToken(req.authorization.value)
    ensures r.Err? ==> r.error == Operational(MissingHeader, UNAUTHENTICATED) ||
                       r.error == Operational(NotLoggedIn, UNAUTHENTICATED)
  {
    if Truthy(req.jwtCookie) then Ok(req.jwtCookie.value)
    else if !Truthy(req.authorization) || !StartsWith(req.authorization.value, BearerPrefix) then
      Err(Operational(MissingHeader, UNAUTHENTICATED))
    else
      var token := BearerToken(req.authorization.value);
      if token == "" then Err(Operational(NotLoggedIn, UNAUTHENTICATED)) else Ok(token)
  }

  /** The whole gate. `verify` stands for `jwt.verify` with the server secret;
      `records` is the user collection, queried through the pre-find hook. */
  function Authenticate(req: Request, verify: string -> Result<Claims, JwtError>,
                        records: seq<UserRecord>): (out: GateOutcome)
    ensures out.Next? ==> ExtractToken(req).Ok?
    ensures out.Next? ==> exists claims: Claims ::
      verify(ExtractToken(req).value) == Ok(claims) &&
      out.req == req.(userId := Some(claims.id), user := Find(records, [IdEquals(claims.id)])) &&
      Find(records, [IdEquals(claims.id)]).Some? &&
      !Find(records, [IdEquals(claims.id)]).value.ChangedPasswordAfter(claims.iat.GetOr(0))
  {
    match ExtractToken(req)
    case Err(f) => NextError(f)
    case Ok(token) =>
      match verify(token)
      case Err(e) => NextError(TokenRejected(e))
      case Ok(claims) =>
        match Find(records, [IdEquals(claims.id)])
        case None => NextError(Operational(UserGone, UNAUTHENTICATED))
        case Some(u) =>
          if u.ChangedPasswordAfter(claims.iat.GetOr(0)) then
            NextError(Operational(PasswordChanged, UNAUTHENTICATED))
          else
            Next(req.(userId := Some(claims.id), user := Some(u)))
  }

  /** The steps run strictly in order: when extraction fails the verifier and the
      store are never consulted, and when verification fails the store is not. */
  lemma {:induction false} FirstFailureDecides(req: Request, verify1: string -> Result<Claims, JwtError>,
                                               verify2: string -> Result<Claims, JwtError>,
                                               records1: seq<UserRecord>, records2: seq<UserRecord>)
    ensures ExtractToken(req).Err? ==>
      Authenticate(req, verify1, records1) == Authenticate(req, verify2, records2) == NextError(ExtractToken(req).error)
    ensures ExtractToken(req).Ok? && verify1(ExtractToken(req).value).Err? ==>
      Authenticate(req, verify1, records1) == Authenticate(req, verify1, records2) ==
      NextError(TokenRejected(verify1(ExtractToken(req).value).error))
  {
  }

  /** A verified token whose user is missing or deactivated is refused as gone;
      a found user whose password changed after the token is refused as stale;
      any other found user is attached to the request with the token's id. */
  lemma LookupAndStaleness(req: Request, verify: string -> Result<Claims, JwtError>,
                           records: seq<UserRecord>, claims: Claims)
    requires ExtractToken(req).Ok? && verify(ExtractToken(req).value) == Ok(claims)
    ensures (forall j :: 0 <= j < |records| && records[j].id == claims.id ==> records[j].active == Some(false)) ==>
      Authenticate(req, verify, records) == NextError(Operational(UserGone, UNAUTHENTICATED))
    ensures Find(records, [IdEquals(claims.id)]).Some? &&
            Find(records, [IdEquals(claims.id)]).value.ChangedPasswordAfter(claims.iat.GetOr(0)) ==>
      Authenticate(req, verify, records) == NextError(Operational(PasswordChanged, UNAUTHENTICATED))
    ensures Find(records, [IdEquals(claims.id)]).Some? &&
            !Find(records, [IdEquals(claims.id)]).value.ChangedPasswordAfter(claims.iat.GetOr(0)) ==>
      Authenticate(req, verify, records) ==
        Next(req.(userId := Some(claims.id), user := Find(records, [IdEquals(claims.id)])))
  {
    FindHidesOnlyDeactivated(records, [IdEquals(claims.id)]);
    if Find(records, [IdEquals(claims.id)]).Some? {
      assert Satisfies(Find(records, [IdEquals(claims.id)]).value, IdEquals(claims.id));
    }
  }

  /** A missing `iat` counts as 0, so such a token is refused exactly when the
      user's password change is stamped at or after the first second of the epoch. */
  lemma MissingIatIsZero(req: Request, verify: string -> Result<Claims, JwtError>,
                         records: seq<UserRecord>, claims: Claims)
    requires ExtractToken(req).Ok? && verify(ExtractToken(req).value) == Ok(claims)
    requires claims.iat.None?
    requires Find(records, [IdEquals(claims.id)]).Some?
    ensures var u := Find(records, [IdEquals(claims.id)]).value;
      Authenticate(req, verify, records).NextError? <==>
      u.passwordChangedAt.Some? && u.passwordChangedAt.value >= 1000
  {
    var u := Find(records, [IdEquals(claims.id)]).value;
    if u.passwordChangedAt.Some? {
      var ms := u.passwordChangedAt.value;
      if ms >= 1000 {
        assert TruncatedSeconds(ms) * 1000 + 1000 > 1000;
      } else if ms >= 0 {
        assert TruncatedSeconds(ms) * 1000 <= ms;
      } else {
        assert TruncatedSeconds(ms) * 1000 - 1000 < ms;
      }
    }
  }

  // ---------------------------------------------------------------------------
  // The middleware as Express runs it

  /** The request object the middleware mutates. */
  class AuthenticatedRequest {
    var jwtCookie: Option<string>
    var authorization: Option<string>
    var userId: Option<string>
    var user: Option<UserRecord>

    function Snapshot(): Request
      reads this
    {
      Request(jwtCookie, authorization, userId, user)
    }

    constructor (jwtCookie: Option<string>, authorization: Option<string>)
      ensures Snapshot() == Request(jwtCookie, authorization, None, None)
    {
      this.jwtCookie := jwtCookie;
      this.authorization := authorization;
      userId := None;
      user := None;
    }
  }

  /** `authenticateJwt(req, res, next)`: returns the argument passed to `next`.
      On success only `userId` and `user` are written. */
  method AuthenticateJwt(req: AuthenticatedRequest, verify: string -> Result<Claims, JwtError>,
                         users: UserCollection) returns (nextArg: Option<Failure>)
    modifies req
    ensures var out := Authenticate(old(req.Snapshot()), verify, users.records);
      (out.Next? ==> nextArg == None && req.Snapshot() == out.req) &&
      (out.NextError? ==> nextArg == Some(out.failure) && req.Snapshot() == old(req.Snapshot()))
  {
    var token: string;
    if req.jwtCookie.Some? && req.jwtCookie.value != "" {
      token := req.jwtCookie.value;
    } else {
      var authHeader := req.authorization;
      if authHeader.None? || authHeader.value == "" || !StartsWith(authHeader.value, BearerPrefix) {
        return Some(Operational(MissingHeader, UNAUTHENTICATED));
      }
      token := BearerToken(authHeader.value);
    }
    if token == "" {
      return Some(Operational(NotLoggedIn, UNAUTHENTICATED));
    }

    var verified := verify(token);
    if verified.Err? {
      return Some(TokenRejected(verified.error));
    }
    var payload := verified.value;

    var query := new FindQuery([IdEquals(payload.id)]);
    query.PreFind();
    var currentUser := query.Exec(users.records);
    if currentUser.None? {
      return Some(Operational(UserGone, UNAUTHENTICATED));
    }

    if currentUser.value.ChangedPasswordAfter(payload.iat.GetOr(0)) {
      return Some(Operational(PasswordChanged, UNAUTHENTICATED));
    }

    req.userId := Some(payload.id);
    req.user := currentUser;
    return None;
  }
}
