/** Values shared by the whole model: the token pair of the library's type
    declarations, the part of a request configuration the interceptor
    touches, and the errors the core throws. */
module Types {

  datatype Option<+T> = None | Some(value: T)

  datatype Result<+T, +E> = Ok(value: T) | Err(error: E)

  /** An encoded JWT, treated as an opaque string. */
  type Token = string

  /** The persisted pair. */
  datatype Tokens = Tokens(accessToken: Token, refreshToken: Token)

  /** The part of a request configuration the interceptor reads and writes:
      an identity for the request and its header record, which may be
      missing (`requestConfig.headers` undefined). */
  datatype Request = Request(id: nat, headers: Option<map<string, string>>)

  /** Every error the core raises. The comment on each variant gives the
      message the library builds for it. */
  datatype Error =
      /** SyntaxError from JSON.parse, message "Failed to parse tokens: <data>". */
    | TokensUnparseable(data: string)
      /** The error jwt-decode throws on a malformed token. */
    | TokenUndecodable(token: Token)
      /** "Unable to update refreshToken since there are no tokens currently stored"
          (both field setters use this text). */
    | NoStoredTokens
      /** "Unable to refresh tokens. No refresh token available." */
    | NoRefreshToken
      /** '"requestRefresh" must either return a string or an object with an "accessToken"' */
    | BadRefreshShape
      /** The TypeError of reading `accessToken` of a `null` refresh result. */
    | NullRefreshResult
      /** An Error raised by the integrator's refresh function or by the HTTP client. */
    | Foreign(message: string)
      /** "Got <status> on token refresh; clearing both tokens" */
    | AuthRejected(status: int)
      /** "Failed to refresh auth token: <message of cause>" */
    | RefreshFailed(cause: Error)
      /** "Failed to refrehs auth token and failed to parse error" (a non-Error was thrown). */
    | RefreshFailedUnknown
      /** "Unable to refresh acces token due to token request error: <message of cause>" */
    | InterceptFailed(cause: Error)
      /** The TypeError of calling `trim` on the missing value of a cookie
          segment that has no `=`. */
    | CookieWithoutValue(segment: string)
      /** "Method not implemented." */
    | NotImplemented
      /** The TypeError of `Promise.reject` called as a bare function, without
          the `Promise` receiver it needs: what `.catch(Promise.reject)` turns
          every rejection into. */
    | ReceiverlessReject
}
