/** The refresh call that `doRefresh` (src/token-interceptor.ts) and
    `refreshTokens` (src/index.ts) make, in identical code: the guard before
    the call, and the sorting of the call's result into exactly one outcome
    once it settles. The integrator's `requestRefresh` is not modelled; what
    it settles with is the input `RefreshOutcome`. */
module Refresh {
  import opened Types
  import opened Json
  import opened TokenStore

  /** What a rejected refresh promise carries: an axios error (with the HTTP
      status of its response, if there was one), another Error, or a value
      that is not an Error at all. */
  datatype Rejection = AxiosError(status: Option<int>, message: string) | ErrorValue(message: string) | NonError

  /** What a fulfilled refresh promise carries: an object with the two
      fields, a bare string, `null`, or anything else (undefined, a number,
      an object without a truthy `accessToken`). */
  datatype RefreshValue = NewPair(tokens: Tokens) | NewAccessToken(token: Token) | Null | OtherShape

  datatype RefreshOutcome = Resolved(value: RefreshValue) | Rejected(reason: Rejection)

  /** Statuses on which the stored pair is dropped. */
  predicate IsAuthStatus(status: int) { status == 401 || status == 422 }

  /** The guard `!this.tokens || !this.refreshToken`: the pair handed to
      `requestRefresh`, or the error thrown before the refresh flag is set. */
  function Start(storage: Storage, key: string, codec: TokenCodec): (r: Result<Tokens, Error>)
    ensures r.Ok? ==> Read(storage, key, codec) == Ok(Some(r.value)) && r.value.refreshToken != ""
    ensures Read(storage, key, codec).Err? ==> r == Err(Read(storage, key, codec).error)
    ensures Read(storage, key, codec).Ok? ==>
              (r.Ok? <==> IsLoggedIn(storage, key, codec) == Ok(true)) &&
              (r.Err? ==> r.error == NoRefreshToken)
  {
    match Read(storage, key, codec)
    case Err(e) => Err(e)
    case Ok(None) => Err(NoRefreshToken)
    case Ok(Some(t)) => if t.refreshToken == "" then Err(NoRefreshToken) else Ok(t)
  }

  /** Where `refreshTokenIfNeeded` gets to before its first suspension: it
      returns a stored token, fails, or calls `requestRefresh` with a pair. */
  datatype Begin = Ready(token: Token) | Failed(error: Error) | Started(tokens: Tokens)

  /** The body of the `try` after `await`, with its `catch`: the storage
      afterwards and the token returned or the error thrown. */
  function Settle(storage: Storage, key: string, codec: TokenCodec, outcome: RefreshOutcome): (r: (Storage, Result<Token, Error>))
    // only the token record can change
    ensures forall k :: k != key ==> (k in r.0 <==> k in storage)
    ensures forall k :: k != key && k in r.0 ==> r.0[k] == storage[k]
    // a pair with a non-empty access token replaces the whole record
    ensures outcome.Resolved? && outcome.value.NewPair? && outcome.value.tokens.accessToken != "" ==>
              r == (Write(storage, key, codec, Some(outcome.value.tokens)), Ok(outcome.value.tokens.accessToken))
    // a string goes through the `accessToken` setter; its error is wrapped
    ensures outcome.Resolved? && outcome.value.NewAccessToken? ==>
              var update := SetAccessToken(storage, key, codec, Some(outcome.value.token));
              r == if update.Ok? then (update.value, Ok(outcome.value.token))
                   else (storage, Err(RefreshFailed(update.error)))
    // 401 and 422 drop the record
    ensures outcome.Rejected? && outcome.reason.AxiosError? && outcome.reason.status.Some? &&
            IsAuthStatus(outcome.reason.status.value) ==>
              r == (storage - {key}, Err(AuthRejected(outcome.reason.status.value)))
    // and only they do: a dropped record always comes from a 401 or 422 rejection
    ensures r.1.Err? && r.1.error.AuthRejected? ==>
              outcome.Rejected? && outcome.reason.AxiosError? &&
              outcome.reason.status == Some(r.1.error.status) && IsAuthStatus(r.1.error.status)
    // every other failure leaves the storage as it was
    ensures r.1.Err? && !r.1.error.AuthRejected? ==> r.0 == storage
    ensures r.1.Err? ==> r.1.error.RefreshFailed? || r.1.error.AuthRejected? || r.1.error == RefreshFailedUnknown
    ensures r.1.Ok? <==>
              (outcome.Resolved? &&
               ((outcome.value.NewPair? && outcome.value.tokens.accessToken != "") ||
                (outcome.value.NewAccessToken? && SetAccessToken(storage, key, codec, Some(outcome.value.token)).Ok?)))
  {
    match outcome
    case Resolved(NewPair(t)) =>
      if t.accessToken != "" then (Write(storage, key, codec, Some(t)), Ok(t.accessToken))
      else (storage, Err(RefreshFailed(BadRefreshShape)))
    case Resolved(NewAccessToken(a)) =>
      (match SetAccessToken(storage, key, codec, Some(a))
       case Ok(st) => (st, Ok(a))
       case Err(e) => (storage, Err(RefreshFailed(e))))
    case Resolved(Null) => (storage, Err(RefreshFailed(NullRefreshResult)))
    case Resolved(OtherShape) => (storage, Err(RefreshFailed(BadRefreshShape)))
    case Rejected(AxiosError(status, message)) =>
      if status.Some? && IsAuthStatus(status.value) then (storage - {key}, Err(AuthRejected(status.value)))
      else (storage, Err(RefreshFailed(Foreign(message))))
    case Rejected(ErrorValue(message)) => (storage, Err(RefreshFailed(Foreign(message))))
    case Rejected(NonError) => (storage, Err(RefreshFailedUnknown))
  }

  /** `refreshTokenIfNeeded` after its `await`: the token the refresh
      returned is written once more through the `accessToken` setter, whose
      error is not wrapped. */
  function Finish(storage: Storage, key: string, codec: TokenCodec, outcome: RefreshOutcome): (r: (Storage, Result<Token, Error>))
    // a refresh that failed is reported as it is, with nothing written again
    ensures Settle(storage, key, codec, outcome).1.Err? ==> r == Settle(storage, key, codec, outcome)
    // the token returned is the one the refresh produced
    ensures r.1.Ok? ==> r.1 == Settle(storage, key, codec, outcome).1
    // otherwise only the second write's error can come out, over the storage the refresh left
    ensures Settle(storage, key, codec, outcome).1.Ok? && r.1.Err? ==> r.0 == Settle(storage, key, codec, outcome).0
  {
    var (st, res) := Settle(storage, key, codec, outcome);
    match res
    case Err(e) => (st, Err(e))
    case Ok(t) =>
      match SetAccessToken(st, key, codec, Some(t))
      case Err(e) => (st, Err(e))
      case Ok(st') => (st', Ok(t))
  }

  /** That second write never changes anything: the caller of a refresh
      sees exactly what the refresh decided. */
  lemma FinishIsSettle(storage: Storage, key: string, codec: TokenCodec, outcome: RefreshOutcome)
    requires Lawful(codec)
    ensures Finish(storage, key, codec, outcome) == Settle(storage, key, codec, outcome)
  {
    match outcome
    case Resolved(NewPair(t)) =>
      if t.accessToken != "" {
        SetSameAccessTokenIsNoOp(Write(storage, key, codec, Some(t)), key, codec, t);
      }
    case Resolved(NewAccessToken(a)) =>
      if a != "" {
        match Read(storage, key, codec)
        case Ok(Some(p)) =>
          SetSameAccessTokenIsNoOp(Write(storage, key, codec, Some(Tokens(a, p.refreshToken))), key, codec, Tokens(a, p.refreshToken));
        case _ =>
      }
    case _ =>
  }

  /** The token a refresh returns, when not empty, is the access token
      stored afterwards. */
  lemma RefreshedTokenIsStored(storage: Storage, key: string, codec: TokenCodec, outcome: RefreshOutcome)
    requires Lawful(codec)
    requires Settle(storage, key, codec, outcome).1.Ok? && Settle(storage, key, codec, outcome).1.value != ""
    ensures AccessToken(Settle(storage, key, codec, outcome).0, key, codec) == Ok(Some(Settle(storage, key, codec, outcome).1.value))
  {
    match outcome
    case Resolved(NewPair(t)) =>
      ReadAfterWrite(storage, key, codec, t);
    case Resolved(NewAccessToken(a)) =>
      match Read(storage, key, codec) {
        case Ok(Some(p)) => ReadAfterWrite(storage, key, codec, Tokens(a, p.refreshToken));
        case _ =>
      }
    case _ =>
  }

  /** A new pair is what the storage holds afterwards. */
  lemma NewPairIsStored(storage: Storage, key: string, codec: TokenCodec, tokens: Tokens)
    requires Lawful(codec) && tokens.accessToken != ""
    ensures var (st, res) := Settle(storage, key, codec, Resolved(NewPair(tokens)));
            res == Ok(tokens.accessToken) && Read(st, key, codec) == Ok(Some(tokens))
  {
    ReadAfterWrite(storage, key, codec, tokens);
  }

  /** A bare string replaces only the access token of the stored pair. */
  lemma NewAccessTokenKeepsRefreshToken(storage: Storage, key: string, codec: TokenCodec, tokens: Tokens, token: Token)
    requires Lawful(codec) && token != ""
    requires Read(storage, key, codec) == Ok(Some(tokens))
    ensures var (st, res) := Settle(storage, key, codec, Resolved(NewAccessToken(token)));
            res == Ok(token) && Read(st, key, codec) == Ok(Some(Tokens(token, tokens.refreshToken)))
  {
    SetAccessTokenKeepsRefreshToken(storage, key, codec, token, tokens);
  }

  /** A 401 or 422 logs the user out. */
  lemma AuthRejectionLogsOut(storage: Storage, key: string, codec: TokenCodec, status: int, message: string)
    requires IsAuthStatus(status)
    ensures var (st, res) := Settle(storage, key, codec, Rejected(AxiosError(Some(status), message)));
            res == Err(AuthRejected(status)) && Read(st, key, codec) == Ok(None) &&
            IsLoggedIn(st, key, codec) == Ok(false)
  {
  }

  /** A `null` result is not a logout: it is the wrapped TypeError of
      reading its `accessToken`, and the stored pair stays. */
  lemma NullResultIsAnError(storage: Storage, key: string, codec: TokenCodec)
    ensures Settle(storage, key, codec, Resolved(Null)) == (storage, Err(RefreshFailed(NullRefreshResult)))
  {
  }
}
