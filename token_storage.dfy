/** TokenStorage (src/index.ts), the older variant of the interceptor's
    storage and refresh logic: one fixed storage key, no queue of waiting
    requests, and an expiry test without a leeway. Its accessors and its
    refresh handling are those of modules TokenStore and Refresh; what is
    its own is the expiry decision and the absence of any coordination
    between overlapping refreshes. */
module Legacy {
  import opened Types
  import opened Json
  import Jwt
  import TokenStore
  import Refresh

  /** `STORAGE_KEY`. */
  const StorageKey: string := "auth-tokens-" + TokenStore.NodeEnv

  /** `EXPIRE_FUDGE`, `ms("10s")` milliseconds; exported, never used. */
  const ExpireFudge: nat := 10000

  /** The flag and the number of `refreshTokens` calls suspended at
      `await this.requestRefresh(...)`. */
  datatype State = State(storage: TokenStore.Storage, refreshing: bool, inFlight: nat)

  /** `refreshTokenIfNeeded` up to the `await` in `refreshTokens`. Only an
      empty token or one due exactly now counts as expired. */
  function BeginRefresh(codec: TokenCodec, decode: Jwt.Decoder, storage: TokenStore.Storage, now: real): (b: Refresh.Begin)
    ensures b.Ready? ==>
              TokenStore.AccessToken(storage, StorageKey, codec) == Ok(Some(b.token)) &&
              b.token != "" && Jwt.IsExpiredNoLeeway(decode, b.token, now) == Ok(false)
    ensures b.Started? ==> Refresh.Start(storage, StorageKey, codec) == Ok(b.tokens)
    // and conversely, case by case
    ensures var at := TokenStore.AccessToken(storage, StorageKey, codec);
            at.Err? ==> b == Refresh.Failed(at.error)
    ensures var at := TokenStore.AccessToken(storage, StorageKey, codec);
            at.Ok? && TokenStore.Truthy(at.value) ==>
              var expired := Jwt.IsExpiredNoLeeway(decode, at.value.value, now);
              (expired.Err? ==> b == Refresh.Failed(expired.error)) &&
              (expired == Ok(false) ==> b == Refresh.Ready(at.value.value))
    ensures var at := TokenStore.AccessToken(storage, StorageKey, codec);
            at.Ok? &&
            (!TokenStore.Truthy(at.value) || Jwt.IsExpiredNoLeeway(decode, at.value.value, now) == Ok(true)) ==>
              var start := Refresh.Start(storage, StorageKey, codec);
              (start.Ok? ==> b == Refresh.Started(start.value)) &&
              (start.Err? ==> b == Refresh.Failed(start.error))
  {
    match TokenStore.AccessToken(storage, StorageKey, codec)
    case Err(e) => Refresh.Failed(e)
    case Ok(accessToken) =>
      if !TokenStore.Truthy(accessToken) then RefreshTokens(codec, storage)
      else
        match Jwt.IsExpiredNoLeeway(decode, accessToken.value, now)
        case Err(e) => Refresh.Failed(e)
        case Ok(true) => RefreshTokens(codec, storage)
        case Ok(false) => Refresh.Ready(accessToken.value)
  }

  function RefreshTokens(codec: TokenCodec, storage: TokenStore.Storage): Refresh.Begin {
    match Refresh.Start(storage, StorageKey, codec)
    case Err(e) => Refresh.Failed(e)
    case Ok(tokens) => Refresh.Started(tokens)
  }

  /** A call of `refreshTokenIfNeeded` up to where it returns, throws, or is
      suspended; the flag is not consulted. */
  function BeginStep(codec: TokenCodec, decode: Jwt.Decoder, s: State, now: real): (r: (State, Refresh.Begin))
    ensures r.1 == BeginRefresh(codec, decode, s.storage, now)
    // nothing is written before the suspension
    ensures r.0.storage == s.storage
    // a suspended call raises the flag and joins those in flight; the others leave the state alone
    ensures r.1.Started? ==> r.0.refreshing && r.0.inFlight == s.inFlight + 1
    ensures !r.1.Started? ==> r.0 == s
  {
    var b := BeginRefresh(codec, decode, s.storage, now);
    (if b.Started? then s.(refreshing := true, inFlight := s.inFlight + 1) else s, b)
  }

  /** One suspended call's refresh settles: `refreshTokens` finishes, its
      `finally` clears the flag, and `refreshTokenIfNeeded` stores the token
      once more. None when no call is suspended. */
  function SettleStep(codec: TokenCodec, s: State, outcome: Refresh.RefreshOutcome): (r: (State, Option<Result<Token, Error>>))
    ensures s.inFlight == 0 ==> r == (s, None)
    // a settling call lowers the flag, leaves the others in flight, and
    // ends with the storage and result `Finish` gives
    ensures s.inFlight > 0 ==>
              r.1.Some? && !r.0.refreshing && r.0.inFlight == s.inFlight - 1 &&
              (r.0.storage, r.1.value) == Refresh.Finish(s.storage, StorageKey, codec, outcome)
  {
    if s.inFlight == 0 then (s, None)
    else
      var (storage, res) := Refresh.Finish(s.storage, StorageKey, codec, outcome);
      (State(storage, false, s.inFlight - 1), Some(res))
  }

  /** Without a leeway a token whose expiry lies in the past is used as it is:
      nothing is refreshed. */
  lemma PastExpiryIsNotRefreshed(codec: TokenCodec, decode: Jwt.Decoder, s: State, now: real, token: Token)
    requires TokenStore.AccessToken(s.storage, StorageKey, codec) == Ok(Some(token)) && token != ""
    requires Jwt.HasExpiry(decode, token) && Jwt.Expiry(decode, token) < now
    ensures BeginStep(codec, decode, s, now) == (s, Refresh.Ready(token))
    ensures Jwt.IsExpired(decode, token, 0.0, now) == Ok(true)
  {
  }

  /** With no refresh token stored, `requestRefresh` is never called and
      nothing changes: the stored token is returned, or the call throws. */
  lemma NoRefreshTokenNoCall(codec: TokenCodec, decode: Jwt.Decoder, s: State, now: real)
    requires TokenStore.IsLoggedIn(s.storage, StorageKey, codec) == Ok(false)
    ensures BeginStep(codec, decode, s, now).0 == s
    ensures !BeginStep(codec, decode, s, now).1.Started?
    ensures var b := BeginStep(codec, decode, s, now).1;
            b.Failed? ==> b.error == NoRefreshToken || b.error.TokenUndecodable?
  {
  }

  /** Every started refresh that settles clears the flag, whatever the
      outcome. */
  lemma SettleClearsFlag(codec: TokenCodec, s: State, outcome: Refresh.RefreshOutcome)
    requires s.inFlight > 0
    ensures !SettleStep(codec, s, outcome).0.refreshing
    ensures SettleStep(codec, s, outcome).0.inFlight == s.inFlight - 1
    ensures SettleStep(codec, s, outcome).1.Some?
  {
  }

  /** Nothing keeps two refreshes apart: a second call while one is in
      flight calls `requestRefresh` again with the same pair. */
  lemma OverlappingCallsRefreshTwice(codec: TokenCodec, decode: Jwt.Decoder, s: State, now: real)
    requires BeginRefresh(codec, decode, s.storage, now).Started?
    ensures var (s1, b1) := BeginStep(codec, decode, s, now);
            var (s2, b2) := BeginStep(codec, decode, s1, now);
            b1.Started? && b2 == b1 && s2.inFlight == s.inFlight + 2 && s2.refreshing
  {
  }

  class TokenStorage {
    const codec: TokenCodec
    const decode: Jwt.Decoder
    var storage: TokenStore.Storage
    var isRefreshing: bool
    /** The `refreshTokens` calls suspended at `await this.requestRefresh(...)`. */
    var inFlight: nat

    ghost function Snapshot(): State
      reads this
    {
      State(storage, isRefreshing, inFlight)
    }

    constructor (storage: TokenStore.Storage, codec: TokenCodec, decode: Jwt.Decoder)
      ensures this.codec == codec && this.decode == decode
      ensures Snapshot() == State(storage, false, 0)
    {
      this.codec := codec;
      this.decode := decode;
      this.storage := storage;
      isRefreshing := false;
      inFlight := 0;
    }

    function GetTokens(): Result<Option<Tokens>, Error> reads this {
      TokenStore.Read(storage, StorageKey, codec)
    }

    /** The `accessToken` getter: `TokenStore.AccessToken` over this instance's storage. */
    function GetAccessToken(): Result<Option<Token>, Error> reads this {
      TokenStore.AccessToken(storage, StorageKey, codec)
    }

    /** The `refreshToken` getter: `TokenStore.RefreshToken` over this instance's storage. */
    function GetRefreshToken(): Result<Option<Token>, Error> reads this {
      TokenStore.RefreshToken(storage, StorageKey, codec)
    }

    /** The `isLoggedIn` getter: `TokenStore.IsLoggedIn` over this instance's storage. */
    function IsLoggedIn(): Result<bool, Error> reads this {
      TokenStore.IsLoggedIn(storage, StorageKey, codec)
    }

    /** The `tokens` setter. */
    method SetTokens(tokens: Option<Tokens>)
      modifies this
      ensures storage == TokenStore.Write(old(storage), StorageKey, codec, tokens)
      ensures isRefreshing == old(isRefreshing) && inFlight == old(inFlight)
    {
      if tokens.None? {
        storage := storage - {StorageKey};
        return;
      }
      storage := storage[StorageKey := codec.stringify(tokens.value)];
    }

    /** The `accessToken` setter: returns the error it throws, if any. */
    method SetAccessToken(token: Option<Token>) returns (thrown: Option<Error>)
      modifies this
      ensures var update := TokenStore.SetAccessToken(old(storage), StorageKey, codec, token);
              if update.Ok? then storage == update.value && thrown == None
              else storage == old(storage) && thrown == Some(update.error)
      ensures isRefreshing == old(isRefreshing) && inFlight == old(inFlight)
    {
      if !TokenStore.Truthy(token) { return None; }
      var tokens := GetTokens();
      if tokens.Err? { return Some(tokens.error); }
      if tokens.value.None? { return Some(NoStoredTokens); }
      SetTokens(Some(tokens.value.value.(accessToken := token.value)));
      return None;
    }

    /** The `refreshToken` setter. */
    method SetRefreshToken(token: Option<Token>) returns (thrown: Option<Error>)
      modifies this
      ensures var update := TokenStore.SetRefreshToken(old(storage), StorageKey, codec, token);
              if update.Ok? then storage == update.value && thrown == None
              else storage == old(storage) && thrown == Some(update.error)
      ensures isRefreshing == old(isRefreshing) && inFlight == old(inFlight)
    {
      if !TokenStore.Truthy(token) { return None; }
      var tokens := GetTokens();
      if tokens.Err? { return Some(tokens.error); }
      if tokens.value.None? { return Some(NoStoredTokens); }
      SetTokens(Some(tokens.value.value.(refreshToken := token.value)));
      return None;
    }

    method Clear()
      modifies this
      ensures storage == TokenStore.Clear(old(storage), StorageKey, codec)
      ensures isRefreshing == old(isRefreshing) && inFlight == old(inFlight)
    {
      SetTokens(None);
    }

    /** `refreshTokenIfNeeded` up to where it returns, throws, or is
        suspended in `refreshTokens`. */
    method RefreshTokenIfNeeded(now: real) returns (begin: Refresh.Begin)
      modifies this
      ensures (Snapshot(), begin) == BeginStep(codec, decode, old(Snapshot()), now)
    {
      var accessToken := GetAccessToken();
      if accessToken.Err? { return Refresh.Failed(accessToken.error); }
      if TokenStore.Truthy(accessToken.value) {
        var expired := Jwt.IsExpiredNoLeeway(decode, accessToken.value.value, now);
        if expired.Err? { return Refresh.Failed(expired.error); }
        if !expired.value { return Refresh.Ready(accessToken.value.value); }
      }
      // refreshTokens
      var start := Refresh.Start(storage, StorageKey, codec);
      if start.Err? { return Refresh.Failed(start.error); }
      isRefreshing := true;
      inFlight := inFlight + 1;
      return Refresh.Started(start.value);
    }

    /** The refresh of one suspended call settles with `outcome`; returns
        what that `refreshTokenIfNeeded` call returns or throws. */
    method Settle(outcome: Refresh.RefreshOutcome) returns (res: Option<Result<Token, Error>>)
      modifies this
      ensures (Snapshot(), res) == SettleStep(codec, old(Snapshot()), outcome)
    {
      if inFlight == 0 { return None; }
      inFlight := inFlight - 1;
      var r := SettleRefreshTokens(outcome);
      if r.Ok? {
        var thrown := SetAccessToken(Some(r.value));
        if thrown.Some? { r := Err(thrown.value); }
      }
      return Some(r);
    }

    /** `refreshTokens` after its `await`: the result handling, the `catch`,
        and the `finally` that clears the flag. */
    method SettleRefreshTokens(outcome: Refresh.RefreshOutcome) returns (res: Result<Token, Error>)
      modifies this
      ensures (storage, res) == Refresh.Settle(old(storage), StorageKey, codec, outcome)
      ensures !isRefreshing && inFlight == old(inFlight)
    {
      match outcome {
      case Resolved(NewPair(tokens)) =>
        if tokens.accessToken != "" {
          SetTokens(Some(tokens));
          res := Ok(tokens.accessToken);
        } else {
          res := Err(RefreshFailed(BadRefreshShape));
        }
      case Resolved(NewAccessToken(token)) =>
        var thrown := SetAccessToken(Some(token));
        res := if thrown.None? then Ok(token) else Err(RefreshFailed(thrown.value));
      case Resolved(Null) =>
        res := Err(RefreshFailed(NullRefreshResult));
      case Resolved(OtherShape) =>
        res := Err(RefreshFailed(BadRefreshShape));
      case Rejected(AxiosError(status, message)) =>
        if status.Some? && Refresh.IsAuthStatus(status.value) {
          storage := storage - {StorageKey};
          res := Err(AuthRejected(status.value));
        } else {
          res := Err(RefreshFailed(Foreign(message)));
        }
      case Rejected(ErrorValue(message)) =>
        res := Err(RefreshFailed(Foreign(message)));
      case Rejected(NonError) =>
        res := Err(RefreshFailedUnknown);
      }
      isRefreshing := false;
    }
  }
}
