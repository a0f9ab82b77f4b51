/** TokenInterceptor (src/token-interceptor.ts): the refresh coordinator.

    JavaScript suspends an async call at each `await`; here every part of a
    call between two suspensions is one step. A request entering the
    interceptor runs until it returns, is parked on the queue, or reaches
    `await this.requestRefresh(...)`. The suspended refresh calls are the
    `frames` of the state; the step `RefreshSettles(i, outcome)` is frame i's
    refresh promise settling, and runs the rest of that call: the result
    handling and `finally` of `doRefresh`, the rest of `refreshTokenIfNeeded`,
    and then the release of the queue.

    The pure functions (`Step` and the functions it is built from) specify
    each step; the class `TokenInterceptor` performs them on its fields, and
    each of its methods is proved to do what its step function says. The
    lemmas at the end are about sequences of steps. */
module Interceptor {
  import opened Types
  import opened Json
  import Jwt
  import TokenStore
  import Refresh
  import opened RequestQueue

  /** The options an integrator may pass; `None` is an option not given. */
  datatype Options = Options(header: Option<string>, headerPrefix: Option<string>,
                             leeway: Option<real>, storageKey: Option<string>)

  /** The merged configuration. The leeway is in seconds. */
  datatype Config = Config(header: string, headerPrefix: string, leeway: real, storageKey: string)

  const Defaults: Config := Config("Authorization", "Bearer ", 10.0, "auth-tokens-" + TokenStore.NodeEnv)

  /** `{ ...this.config, ...config.options }`: each option given replaces
      its default; every other field keeps the default. */
  function MergeConfig(options: Options): (c: Config)
    ensures options.header.Some? ==> c.header == options.header.value
    ensures options.header.None? ==> c.header == Defaults.header
    ensures options.headerPrefix.Some? ==> c.headerPrefix == options.headerPrefix.value
    ensures options.headerPrefix.None? ==> c.headerPrefix == Defaults.headerPrefix
    ensures options.leeway.Some? ==> c.leeway == options.leeway.value
    ensures options.leeway.None? ==> c.leeway == Defaults.leeway
    ensures options.storageKey.Some? ==> c.storageKey == options.storageKey.value
    ensures options.storageKey.None? ==> c.storageKey == Defaults.storageKey
  {
    Config(
      if options.header.Some? then options.header.value else Defaults.header,
      if options.headerPrefix.Some? then options.headerPrefix.value else Defaults.headerPrefix,
      if options.leeway.Some? then options.leeway.value else Defaults.leeway,
      if options.storageKey.Some? then options.storageKey.value else Defaults.storageKey)
  }

  /** What an interceptor is built from besides its storage: the merged
      configuration, JSON on token pairs, and jwt-decode. */
  datatype Env = Env(config: Config, codec: TokenCodec, decode: Jwt.Decoder)

  /** Who is waiting on a suspended refresh: a request inside the
      interceptor, or a direct call of the public `refreshTokenIfNeeded`. */
  datatype Origin = Intercepted(request: Request) | Direct

  datatype State = State(storage: TokenStore.Storage, refreshing: bool,
                         queue: seq<PromiseBuilder>, frames: seq<Origin>)

  /** How the call a step ran ends: the interceptor hands a request on, a
      direct call returns a token, a setter returns, or the call throws. */
  datatype Reply = Forward(request: Request) | Value(token: Token) | Done | Threw(error: Error)

  /** What a step shows outside: how the call it ran ends (None while that
      call is suspended), the callbacks it made on parked requests, and the
      pair it handed to `requestRefresh`, if it called it. */
  datatype Output = Output(reply: Option<Reply>, released: seq<Settlement>, refreshCall: Option<Tokens>)

  /** The state of a new interceptor over a given storage. */
  function Initial(storage: TokenStore.Storage): State {
    State(storage, false, [], [])
  }

  /** Template-literal text of a possibly undefined token. */
  function TokenText(token: Option<Token>): string {
    if token.Some? then token.value else "undefined"
  }

  /** `requestConfig.headers[header] = headerPrefix + token`, when the
      request has a header record. */
  function Stamp(config: Config, request: Request, token: Option<Token>): (r: Request)
    // only the headers can change
    ensures r.id == request.id && r.headers.Some? == request.headers.Some?
    ensures r.headers.Some? ==>
              config.header in r.headers.value &&
              r.headers.value[config.header] == config.headerPrefix + TokenText(token) &&
              (forall h :: h != config.header ==> (h in r.headers.value <==> h in request.headers.value)) &&
              (forall h :: h != config.header && h in r.headers.value ==> r.headers.value[h] == request.headers.value[h])
    ensures request.headers.None? ==> r == request
  {
    if request.headers.None? then request
    else request.(headers := Some(request.headers.value[config.header := config.headerPrefix + TokenText(token)]))
  }

  /** How a parked request's interceptor call ends once its callback is
      called: stamped with the token it is resolved with, or, when it is
      rejected, with the TypeError of `.catch(Promise.reject)`. */
  function ParkedReply(config: Config, settlement: Settlement): (r: Reply)
    // resolved requests go on, rejected ones throw; nothing returns a value
    ensures r.Forward? <==> settlement.outcome.Fulfil?
    ensures r.Threw? <==> settlement.outcome.Reject?
    ensures r.Forward? ==> r.request == Stamp(config, settlement.entry.request, settlement.outcome.token)
    ensures r.Threw? ==> r.error == ReceiverlessReject
  {
    match settlement.outcome
    case Fulfil(token) => Forward(Stamp(config, settlement.entry.request, token))
    case Reject(_) => Threw(ReceiverlessReject)
  }

  /** `refreshTokenIfNeeded` up to the `await` in `doRefresh`: a stored,
      unexpired access token is returned at once; otherwise `doRefresh`
      guards and calls `requestRefresh` with the stored pair. */
  function BeginRefresh(env: Env, storage: TokenStore.Storage, now: real): (b: Refresh.Begin)
    ensures b.Ready? ==>
              TokenStore.AccessToken(storage, env.config.storageKey, env.codec) == Ok(Some(b.token)) &&
              b.token != "" && Jwt.IsExpired(env.decode, b.token, env.config.leeway, now) == Ok(false)
    ensures b.Started? ==> Refresh.Start(storage, env.config.storageKey, env.codec) == Ok(b.tokens)
    // and conversely, case by case
    ensures var at := TokenStore.AccessToken(storage, env.config.storageKey, env.codec);
            at.Err? ==> b == Refresh.Failed(at.error)
    ensures var at := TokenStore.AccessToken(storage, env.config.storageKey, env.codec);
            at.Ok? && TokenStore.Truthy(at.value) ==>
              var expired := Jwt.IsExpired(env.decode, at.value.value, env.config.leeway, now);
              (expired.Err? ==> b == Refresh.Failed(expired.error)) &&
              (expired == Ok(false) ==> b == Refresh.Ready(at.value.value))
    ensures var at := TokenStore.AccessToken(storage, env.config.storageKey, env.codec);
            at.Ok? &&
            (!TokenStore.Truthy(at.value) ||
             Jwt.IsExpired(env.decode, at.value.value, env.config.leeway, now) == Ok(true)) ==>
              var start := Refresh.Start(storage, env.config.storageKey, env.codec);
              (start.Ok? ==> b == Refresh.Started(start.value)) &&
              (start.Err? ==> b == Refresh.Failed(start.error))
  {
    match TokenStore.AccessToken(storage, env.config.storageKey, env.codec)
    case Err(e) => Refresh.Failed(e)
    case Ok(accessToken) =>
      if !TokenStore.Truthy(accessToken) then DoRefresh(env, storage)
      else
        match Jwt.IsExpired(env.decode, accessToken.value, env.config.leeway, now)
        case Err(e) => Refresh.Failed(e)
        case Ok(true) => DoRefresh(env, storage)
        case Ok(false) => Refresh.Ready(accessToken.value)
  }

  function DoRefresh(env: Env, storage: TokenStore.Storage): Refresh.Begin {
    match Refresh.Start(storage, env.config.storageKey, env.codec)
    case Err(e) => Refresh.Failed(e)
    case Ok(tokens) => Refresh.Started(tokens)
  }

  /** `this.queue.resolve(token)` and the header stamp of the request itself. */
  function Resume(env: Env, s: State, request: Request, token: Token): (r: (State, Output))
    ensures r.0 == s.(queue := [])
    ensures r.1.reply == Some(Forward(Stamp(env.config, request, Some(token)))) && r.1.refreshCall.None?
    // every parked request is resolved with the same token, in the order it was parked
    ensures |r.1.released| == |s.queue|
    ensures forall i :: 0 <= i < |s.queue| ==> r.1.released[i] == Settlement(s.queue[i], Fulfil(Some(token)))
  {
    ReleaseInOrder(s.queue, Fulfil(Some(token)));
    (s.(queue := []),
     Output(Some(Forward(Stamp(env.config, request, Some(token)))), Release(s.queue, Fulfil(Some(token))), None))
  }

  /** The interceptor's `catch`: `this.queue.decline(e)` and a wrapped rethrow. */
  function Abort(env: Env, s: State, e: Error): (r: (State, Output))
    ensures r.0 == s.(queue := [])
    ensures r.1.reply == Some(Threw(InterceptFailed(e))) && r.1.refreshCall.None?
    // every parked request is rejected with the same error, in the order it was parked
    ensures |r.1.released| == |s.queue|
    ensures forall i :: 0 <= i < |s.queue| ==> r.1.released[i] == Settlement(s.queue[i], Reject(e))
  {
    ReleaseInOrder(s.queue, Reject(e));
    (s.(queue := []), Output(Some(Threw(InterceptFailed(e))), Release(s.queue, Reject(e)), None))
  }

  /** A request entering `interceptor`. */
  function InterceptStep(env: Env, s: State, request: Request, now: real): (r: (State, Output))
    // a request never writes the storage before its refresh settles
    ensures r.0.storage == s.storage
    ensures var rt := TokenStore.RefreshToken(s.storage, env.config.storageKey, env.codec);
            rt.Err? ==> r == (s, Output(Some(Threw(rt.error)), [], None))
    // without a refresh token the request goes on untouched
    ensures var rt := TokenStore.RefreshToken(s.storage, env.config.storageKey, env.codec);
            rt.Ok? && !TokenStore.Truthy(rt.value) ==> r == (s, Output(Some(Forward(request)), [], None))
    // while a refresh is in flight the request is parked at the end of the queue
    ensures var rt := TokenStore.RefreshToken(s.storage, env.config.storageKey, env.codec);
            rt.Ok? && TokenStore.Truthy(rt.value) && s.refreshing ==>
              r == (s.(queue := s.queue + [PromiseBuilder(request)]), Output(None, [], None))
    // only a request that finds no refresh in flight calls `requestRefresh`,
    // and then it is suspended and the queue waits
    ensures r.1.refreshCall.Some? <==>
              !s.refreshing && TokenStore.RefreshToken(s.storage, env.config.storageKey, env.codec).Ok? &&
              TokenStore.Truthy(TokenStore.RefreshToken(s.storage, env.config.storageKey, env.codec).value) &&
              BeginRefresh(env, s.storage, now).Started?
    ensures r.1.refreshCall.Some? ==>
              r.0 == s.(refreshing := true, frames := s.frames + [Intercepted(request)]) &&
              r.1 == Output(None, [], Some(BeginRefresh(env, s.storage, now).tokens))
    // an idle, logged-in request with a usable token resolves the queue with it
    // and goes on stamped; one whose token cannot be used declines the queue
    // and throws the wrapped error
    ensures var rt := TokenStore.RefreshToken(s.storage, env.config.storageKey, env.codec);
            var b := BeginRefresh(env, s.storage, now);
            rt.Ok? && TokenStore.Truthy(rt.value) && !s.refreshing && b.Ready? ==>
              r.0 == s.(queue := []) &&
              r.1 == Output(Some(Forward(Stamp(env.config, request, Some(b.token)))), Release(s.queue, Fulfil(Some(b.token))), None)
    ensures var rt := TokenStore.RefreshToken(s.storage, env.config.storageKey, env.codec);
            var b := BeginRefresh(env, s.storage, now);
            rt.Ok? && TokenStore.Truthy(rt.value) && !s.refreshing && b.Failed? ==>
              r.0 == s.(queue := []) &&
              r.1 == Output(Some(Threw(InterceptFailed(b.error))), Release(s.queue, Reject(b.error)), None)
  {
    match TokenStore.RefreshToken(s.storage, env.config.storageKey, env.codec)
    case Err(e) => (s, Output(Some(Threw(e)), [], None))
    case Ok(refreshToken) =>
      if !TokenStore.Truthy(refreshToken) then (s, Output(Some(Forward(request)), [], None))
      else if s.refreshing then (s.(queue := s.queue + [PromiseBuilder(request)]), Output(None, [], None))
      else
        match BeginRefresh(env, s.storage, now)
        case Ready(token) => Resume(env, s, request, token)
        case Failed(e) => Abort(env, s, e)
        case Started(tokens) =>
          (s.(refreshing := true, frames := s.frames + [Intercepted(request)]), Output(None, [], Some(tokens)))
  }

  /** A direct call of the public `refreshTokenIfNeeded`. */
  function DirectStep(env: Env, s: State, now: real): (r: (State, Output))
    // a direct call neither parks nor releases anything
    ensures r.0.storage == s.storage && r.0.queue == s.queue && r.1.released == []
    ensures r.1.refreshCall.Some? <==> BeginRefresh(env, s.storage, now).Started?
    ensures r.1.refreshCall.Some? ==>
              r.0 == s.(refreshing := true, frames := s.frames + [Direct]) && r.1.reply.None?
    ensures BeginRefresh(env, s.storage, now).Ready? ==>
              r == (s, Output(Some(Value(BeginRefresh(env, s.storage, now).token)), [], None))
    ensures BeginRefresh(env, s.storage, now).Failed? ==>
              r == (s, Output(Some(Threw(BeginRefresh(env, s.storage, now).error)), [], None))
  {
    match BeginRefresh(env, s.storage, now)
    case Ready(token) => (s, Output(Some(Value(token)), [], None))
    case Failed(e) => (s, Output(Some(Threw(e)), [], None))
    case Started(tokens) => (s.(refreshing := true, frames := s.frames + [Direct]), Output(None, [], Some(tokens)))
  }

  /** Frame `index`'s refresh promise settles with `outcome`. */
  function SettleStep(env: Env, s: State, index: nat, outcome: Refresh.RefreshOutcome): (r: (State, Output))
    ensures index >= |s.frames| ==> r == (s, Output(None, [], None))
    // the frame's call ends: the flag is lowered, the frame removed, and the
    // storage is what `Finish` leaves
    ensures index < |s.frames| ==>
              var fin := Refresh.Finish(s.storage, env.config.storageKey, env.codec, outcome);
              r.0.storage == fin.0 && !r.0.refreshing &&
              r.0.frames == s.frames[..index] + s.frames[index + 1..] &&
              r.1.reply.Some? && r.1.refreshCall.None?
    // a direct call settling returns or throws and leaves the queue parked
    ensures index < |s.frames| && s.frames[index].Direct? ==>
              var res := Refresh.Finish(s.storage, env.config.storageKey, env.codec, outcome).1;
              r.0.queue == s.queue && r.1.released == [] &&
              r.1.reply == Some(if res.Ok? then Value(res.value) else Threw(res.error))
    // a request settling releases the whole queue with its result
    ensures index < |s.frames| && s.frames[index].Intercepted? ==>
              var res := Refresh.Finish(s.storage, env.config.storageKey, env.codec, outcome).1;
              r.0.queue == [] &&
              r.1.released == Release(s.queue, if res.Ok? then Fulfil(Some(res.value)) else Reject(res.error)) &&
              r.1.reply == Some(if res.Ok? then Forward(Stamp(env.config, s.frames[index].request, Some(res.value)))
                                else Threw(InterceptFailed(res.error)))
  {
    if index >= |s.frames| then (s, Output(None, [], None))
    else
      var (storage, res) := Refresh.Finish(s.storage, env.config.storageKey, env.codec, outcome);
      var s' := s.(storage := storage, refreshing := false, frames := s.frames[..index] + s.frames[index + 1..]);
      match s.frames[index]
      case Direct => (s', Output(Some(if res.Ok? then Value(res.value) else Threw(res.error)), [], None))
      case Intercepted(request) => if res.Ok? then Resume(env, s', request, res.value) else Abort(env, s', res.error)
  }

  function UpdateStep(s: State, update: Result<TokenStore.Storage, Error>): (State, Output) {
    match update
    case Ok(storage) => (s.(storage := storage), Output(Some(Done), [], None))
    case Err(e) => (s, Output(Some(Threw(e)), [], None))
  }

  datatype Event =
    | Intercept(request: Request, now: real)
    | RefreshSettles(frame: nat, outcome: Refresh.RefreshOutcome)
    | RefreshIfNeeded(now: real)
    | AssignTokens(tokens: Option<Tokens>)
    | AssignAccessToken(token: Option<Token>)
    | AssignRefreshToken(token: Option<Token>)
    | ClearTokens

  function Step(env: Env, s: State, e: Event): (r: (State, Output))
    // the accessors only touch the storage and always return
    ensures e.AssignTokens? || e.AssignAccessToken? || e.AssignRefreshToken? || e.ClearTokens? ==>
              r.0.refreshing == s.refreshing && r.0.queue == s.queue && r.0.frames == s.frames &&
              r.1.released == [] && r.1.refreshCall.None? && r.1.reply.Some?
    // only a request or a direct call starts a refresh, and a direct call
    // leaves the queue alone
    ensures r.1.refreshCall.Some? ==> e.Intercept? || e.RefreshIfNeeded?
    ensures e.RefreshIfNeeded? ==> r.0.queue == s.queue && r.1.released == []
  {
    var key, codec := env.config.storageKey, env.codec;
    match e
    case Intercept(request, now) => InterceptStep(env, s, request, now)
    case RefreshSettles(index, outcome) => SettleStep(env, s, index, outcome)
    case RefreshIfNeeded(now) => DirectStep(env, s, now)
    case AssignTokens(tokens) => (s.(storage := TokenStore.Write(s.storage, key, codec, tokens)), Output(Some(Done), [], None))
    case AssignAccessToken(token) => UpdateStep(s, TokenStore.SetAccessToken(s.storage, key, codec, token))
    case AssignRefreshToken(token) => UpdateStep(s, TokenStore.SetRefreshToken(s.storage, key, codec, token))
    case ClearTokens => (s.(storage := TokenStore.Clear(s.storage, key, codec)), Output(Some(Done), [], None))
  }

  function Run(env: Env, s: State, events: seq<Event>): State
    decreases |events|
  {
    if |events| == 0 then s else Run(env, Step(env, s, events[0]).0, events[1..])
  }

  /** How many times the events call `requestRefresh`. */
  function Calls(env: Env, s: State, events: seq<Event>): nat
    decreases |events|
  {
    if |events| == 0 then 0
    else (if Step(env, s, events[0]).1.refreshCall.Some? then 1 else 0) + Calls(env, Step(env, s, events[0]).0, events[1..])
  }

  /** How many of the events settle a refresh that was in flight. */
  function Settled(env: Env, s: State, events: seq<Event>): nat
    decreases |events|
  {
    if |events| == 0 then 0
    else (if events[0].RefreshSettles? && events[0].frame < |s.frames| then 1 else 0) + Settled(env, Step(env, s, events[0]).0, events[1..])
  }

  /** Events that go through the interceptor or the accessors, not through
      the public `refreshTokenIfNeeded`. */
  predicate ThroughInterceptor(e: Event) { !e.RefreshIfNeeded? }

  /** The single-flight invariant: at most one refresh is in flight, the flag
      says whether one is, it was started by a request in the interceptor,
      and nothing is parked while none is in flight. */
  ghost predicate SingleFlight(s: State) {
    && |s.frames| <= 1
    && (s.refreshing <==> |s.frames| == 1)
    && (forall i :: 0 <= i < |s.frames| ==> s.frames[i].Intercepted?)
    && (!s.refreshing ==> s.queue == [])
  }

  class TokenInterceptor {
    const env: Env
    var storage: TokenStore.Storage
    var isRefreshing: bool
    const queue: Queue
    /** The refresh calls suspended at `await this.requestRefresh(...)`. */
    var frames: seq<Origin>

    ghost function Snapshot(): State
      reads this, queue
    {
      State(storage, isRefreshing, queue.queue, frames)
    }

    constructor (storage: TokenStore.Storage, options: Options, codec: TokenCodec, decode: Jwt.Decoder)
      ensures env == Env(MergeConfig(options), codec, decode)
      ensures Snapshot() == Initial(storage)
      ensures fresh(queue)
    {
      env := Env(MergeConfig(options), codec, decode);
      this.storage := storage;
      isRefreshing := false;
      queue := new Queue();
      frames := [];
    }

    function Key(): string { env.config.storageKey }

    /** The `isRefreshing` getter. */
    function IsRefreshing(): bool reads this { isRefreshing }

    /** The `tokens` getter. */
    function GetTokens(): Result<Option<Tokens>, Error> reads this {
      TokenStore.Read(storage, Key(), env.codec)
    }

    /** The `accessToken` getter: `TokenStore.AccessToken` over this instance's storage. */
    function GetAccessToken(): Result<Option<Token>, Error> reads this {
      TokenStore.AccessToken(storage, Key(), env.codec)
    }

    /** The `refreshToken` getter: `TokenStore.RefreshToken` over this instance's storage. */
    function GetRefreshToken(): Result<Option<Token>, Error> reads this {
      TokenStore.RefreshToken(storage, Key(), env.codec)
    }

    /** The `isLoggedIn` getter: `TokenStore.IsLoggedIn` over this instance's storage. */
    function IsLoggedIn(): Result<bool, Error> reads this {
      TokenStore.IsLoggedIn(storage, Key(), env.codec)
    }

    /** The `tokens` setter. */
    method SetTokens(tokens: Option<Tokens>)
      modifies this
      ensures storage == TokenStore.Write(old(storage), Key(), env.codec, tokens)
      ensures isRefreshing == old(isRefreshing) && frames == old(frames)
    {
      if tokens.None? {
        storage := storage - {Key()};
        return;
      }
      storage := storage[Key() := env.codec.stringify(tokens.value)];
    }

    /** The `accessToken` setter: returns the error it throws, if any. */
    method SetAccessToken(token: Option<Token>) returns (thrown: Option<Error>)
      modifies this
      ensures var update := TokenStore.SetAccessToken(old(storage), Key(), env.codec, token);
              if update.Ok? then storage == update.value && thrown == None
              else storage == old(storage) && thrown == Some(update.error)
      ensures isRefreshing == old(isRefreshing) && frames == old(frames)
    {
      if !TokenStore.Truthy(token) { return None; }
      var tokens := GetTokens();
      if tokens.Err? { return Some(tokens.error); }
      if tokens.value.None? { return Some(NoStoredTokens); }
      SetTokens(Some(tokens.value.value.(accessToken := token.value)));
      return None;
    }

    /** The `refreshToken` setter. */
    method SetRefreshToken(token: Option<Token>) returns (thrown: Option<Error>)
      modifies this
      ensures var update := TokenStore.SetRefreshToken(old(storage), Key(), env.codec, token);
              if update.Ok? then storage == update.value && thrown == None
              else storage == old(storage) && thrown == Some(update.error)
      ensures isRefreshing == old(isRefreshing) && frames == old(frames)
    {
      if !TokenStore.Truthy(token) { return None; }
      var tokens := GetTokens();
      if tokens.Err? { return Some(tokens.error); }
      if tokens.value.None? { return Some(NoStoredTokens); }
      SetTokens(Some(tokens.value.value.(refreshToken := token.value)));
      return None;
    }

    method ClearTokens()
      modifies this
      ensures storage == TokenStore.Clear(old(storage), Key(), env.codec)
      ensures isRefreshing == old(isRefreshing) && frames == old(frames)
    {
      SetTokens(None);
    }

    /** `refreshTokenIfNeeded` up to the suspension, on behalf of `origin`:
        when `doRefresh` gets past its guard it sets the flag and records the
        suspended call. */
    method BeginRefreshTokenIfNeeded(now: real, origin: Origin) returns (begin: Refresh.Begin)
      modifies this
      ensures begin == BeginRefresh(env, old(storage), now)
      ensures storage == old(storage)
      ensures begin.Started? ==> isRefreshing && frames == old(frames) + [origin]
      ensures !begin.Started? ==> isRefreshing == old(isRefreshing) && frames == old(frames)
    {
      var accessToken := GetAccessToken();
      if accessToken.Err? { return Refresh.Failed(accessToken.error); }
      if TokenStore.Truthy(accessToken.value) {
        var expired := Jwt.IsExpired(env.decode, accessToken.value.value, env.config.leeway, now);
        if expired.Err? { return Refresh.Failed(expired.error); }
        if !expired.value { return Refresh.Ready(accessToken.value.value); }
      }
      // doRefresh
      var start := Refresh.Start(storage, Key(), env.codec);
      if start.Err? { return Refresh.Failed(start.error); }
      isRefreshing := true;
      frames := frames + [origin];
      return Refresh.Started(start.value);
    }

    /** `doRefresh` after its `await`: the result handling, the `catch`,
        and the `finally` that clears the flag. */
    method SettleDoRefresh(outcome: Refresh.RefreshOutcome) returns (res: Result<Token, Error>)
      modifies this
      ensures (storage, res) == Refresh.Settle(old(storage), Key(), env.codec, outcome)
      ensures !isRefreshing && frames == old(frames)
    {
      match outcome {
      case Resolved(NewPair(tokens)) =>
        if tokens.accessToken != "" {
          SetTokens(Some(tokens));
          res := Ok(tokens.accessToken);
        } else {
          res := Err(RefreshFailed(BadRefreshShape));
        }
      case Resolved(NewAccessToken(token)) =>
        var thrown := SetAccessToken(Some(token));
        res := if thrown.None? then Ok(token) else Err(RefreshFailed(thrown.value));
      case Resolved(Null) =>
        res := Err(RefreshFailed(NullRefreshResult));
      case Resolved(OtherShape) =>
        res := Err(RefreshFailed(BadRefreshShape));
      case Rejected(AxiosError(status, message)) =>
        if status.Some? && Refresh.IsAuthStatus(status.value) {
          storage := storage - {Key()};
          res := Err(AuthRejected(status.value));
        } else {
          res := Err(RefreshFailed(Foreign(message)));
        }
      case Rejected(ErrorValue(message)) =>
        res := Err(RefreshFailed(Foreign(message)));
      case Rejected(NonError) =>
        res := Err(RefreshFailedUnknown);
      }
      isRefreshing := false;
    }

    /** `interceptor(requestConfig)` up to where it returns, throws, or is
        suspended. */
    method Intercept(request: Request, now: real) returns (out: Output)
      modifies this, queue
      ensures (Snapshot(), out) == InterceptStep(env, old(Snapshot()), request, now)
    {
      var refreshToken := GetRefreshToken();
      if refreshToken.Err? { return Output(Some(Threw(refreshToken.error)), [], None); }
      if !TokenStore.Truthy(refreshToken.value) { return Output(Some(Forward(request)), [], None); }
      if isRefreshing {
        queue.Enqueue(PromiseBuilder(request));
        return Output(None, [], None);
      }
      var begin := BeginRefreshTokenIfNeeded(now, Intercepted(request));
      match begin
      case Ready(token) =>
        var released := queue.Resolve(Some(token));
        out := Output(Some(Forward(Stamp(env.config, request, Some(token)))), released, None);
      case Failed(e) =>
        var released := queue.Decline(e);
        out := Output(Some(Threw(InterceptFailed(e))), released, None);
      case Started(tokens) =>
        out := Output(None, [], Some(tokens));
    }

    /** A direct call of `refreshTokenIfNeeded` up to where it returns,
        throws, or is suspended. */
    method RefreshTokenIfNeeded(now: real) returns (out: Output)
      modifies this
      ensures queue.queue == old(queue.queue)
      ensures (Snapshot(), out) == DirectStep(env, old(Snapshot()), now)
    {
      var begin := BeginRefreshTokenIfNeeded(now, Direct);
      match begin
      case Ready(token) => out := Output(Some(Value(token)), [], None);
      case Failed(e) => out := Output(Some(Threw(e)), [], None);
      case Started(tokens) => out := Output(None, [], Some(tokens));
    }

    /** The refresh promise of suspended call `index` settles with `outcome`:
        `doRefresh` finishes, `refreshTokenIfNeeded` stores the token once
        more, and a request in the interceptor releases the queue. */
    method Settle(index: nat, outcome: Refresh.RefreshOutcome) returns (out: Output)
      modifies this, queue
      ensures (Snapshot(), out) == SettleStep(env, old(Snapshot()), index, outcome)
    {
      if index >= |frames| { return Output(None, [], None); }
      var origin := frames[index];
      frames := frames[..index] + frames[index + 1..];
      var res := SettleDoRefresh(outcome);
      if res.Ok? {
        var thrown := SetAccessToken(Some(res.value));
        if thrown.Some? { res := Err(thrown.value); }
      }
      match origin
      case Direct =>
        out := Output(Some(if res.Ok? then Value(res.value) else Threw(res.error)), [], None);
      case Intercepted(request) =>
        if res.Ok? {
          var released := queue.Resolve(Some(res.value));
          out := Output(Some(Forward(Stamp(env.config, request, Some(res.value)))), released, None);
        } else {
          var released := queue.Decline(res.error);
          out := Output(Some(Threw(InterceptFailed(res.error))), released, None);
        }
    }
  }
}
