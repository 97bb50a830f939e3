/** What the middlewares and handlers hand back to Express: a response, or the
    error passed to `next` (directly, or thrown and forwarded by `asyncHandler`). */
module Http {

  import opened Wrappers
  import UserModel

  /** The named status codes the core uses; their numeric values are defined
      in utils/globalConstants.ts, which is not part of this model. */
  datatype StatusCode =
    | OK | CREATED | BAD_REQUEST | UNAUTHENTICATED | UNAUTHORIZED | NOT_FOUND | INTERNAL_SERVER_ERROR

  /** The claims of a signed session token: `jwt.sign({ id })` adds the issue
      time `iat` in whole seconds. The signed string itself is left abstract. */
  datatype Claims = Claims(id: string, iat: Option<int>)

  /** Why `jwt.verify` throws. */
  datatype JwtError = Malformed | InvalidSignature | Expired

  datatype Failure =
    | Operational(message: string, code: StatusCode)   // next(new AppError(message, code))
    | TokenRejected(reason: JwtError)                 // thrown by jwt.verify
    | SaveFailed(cause: UserModel.SaveError)          // thrown by save() / create()

  datatype Cookie = Cookie(name: string, value: Claims, httpOnly: bool, secure: bool)

  datatype Body =
    | TokenBody(status: string, token: Claims, user: UserModel.UserRecord)
    | MessageBody(status: string, message: string)

  datatype Response = Response(code: StatusCode, cookie: Option<Cookie>, body: Body)

  datatype HandlerResult = Respond(response: Response) | Fail(failure: Failure)
}
