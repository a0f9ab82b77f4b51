/** What the interceptor's steps guarantee over time: one refresh at a time
    for requests through the interceptor, parked requests released in order
    with the refresh's one outcome, and the end-to-end scenarios of a
    refresh that succeeds, is refused, or returns nothing. */
module InterceptorProperties {
  import opened Types
  import opened Json
  import Jwt
  import TokenStore
  import Refresh
  import opened RequestQueue
  import opened Interceptor

  /** Scenario helper: one request per element of `requests`, all arriving
      at time `now`. */
  function Intercepts(requests: seq<Request>, now: real): seq<Event> {
    seq(|requests|, i requires 0 <= i < |requests| => Intercept(requests[i], now))
  }

  /** Scenario helper: the queue entries those requests become. */
  function Builders(requests: seq<Request>): seq<PromiseBuilder> {
    seq(|requests|, i requires 0 <= i < |requests| => PromiseBuilder(requests[i]))
  }

  /** Every step but a direct `refreshTokenIfNeeded` keeps the single-flight
      invariant. */
  lemma StepKeepsSingleFlight(env: Env, s: State, e: Event)
    requires SingleFlight(s) && ThroughInterceptor(e)
    ensures SingleFlight(Step(env, s, e).0)
  {
    match e
    case RefreshSettles(index, outcome) =>
      if index < |s.frames| {
        assert s.frames[index].Intercepted?;
        assert s.frames[..index] + s.frames[index + 1..] == [];
      }
    case _ =>
  }

  lemma {:induction false} RunKeepsSingleFlight(env: Env, s: State, events: seq<Event>)
    requires SingleFlight(s)
    requires forall i :: 0 <= i < |events| ==> ThroughInterceptor(events[i])
    ensures SingleFlight(Run(env, s, events))
    decreases |events|
  {
    if |events| > 0 {
      StepKeepsSingleFlight(env, s, events[0]);
      RunKeepsSingleFlight(env, Step(env, s, events[0]).0, events[1..]);
    }
  }

  /** A step through the interceptor calls `requestRefresh` only when no
      refresh is in flight, and then exactly one is. */
  lemma RefreshCallOnlyWhenIdle(env: Env, s: State, e: Event)
    requires SingleFlight(s) && ThroughInterceptor(e)
    requires Step(env, s, e).1.refreshCall.Some?
    ensures !s.refreshing && s.frames == []
    ensures Step(env, s, e).0.refreshing && |Step(env, s, e).0.frames| == 1
  {
  }

  /** Each step adds one suspended call per `requestRefresh` call and takes
      one away per refresh that settles. */
  lemma StepFrames(env: Env, s: State, e: Event)
    ensures |Step(env, s, e).0.frames| + (if e.RefreshSettles? && e.frame < |s.frames| then 1 else 0)
            == |s.frames| + (if Step(env, s, e).1.refreshCall.Some? then 1 else 0)
  {
    match e
    case RefreshSettles(index, outcome) =>
      if index < |s.frames| {
        assert |s.frames[..index] + s.frames[index + 1..]| == |s.frames| - 1;
      }
    case _ =>
  }

  lemma {:induction false} FramesBalance(env: Env, s: State, events: seq<Event>)
    ensures |Run(env, s, events).frames| + Settled(env, s, events) == |s.frames| + Calls(env, s, events)
    decreases |events|
  {
    if |events| > 0 {
      StepFrames(env, s, events[0]);
      FramesBalance(env, Step(env, s, events[0]).0, events[1..]);
    }
  }

  /** Single flight over a whole run: however the events interleave, the
      interceptor calls `requestRefresh` at most once more than the number
      of refreshes that settled in between. */
  lemma AtMostOneRefreshInFlight(env: Env, s: State, events: seq<Event>)
    requires SingleFlight(s)
    requires forall i :: 0 <= i < |events| ==> ThroughInterceptor(events[i])
    ensures Calls(env, s, events) + |s.frames| <= Settled(env, s, events) + 1
  {
    FramesBalance(env, s, events);
    RunKeepsSingleFlight(env, s, events);
  }

  /** The public `refreshTokenIfNeeded` does not look at the flag: called
      while a refresh is in flight, it starts a second one. */
  lemma DirectCallStartsSecondRefresh(env: Env, s: State, now: real)
    requires SingleFlight(s) && s.refreshing
    requires BeginRefresh(env, s.storage, now).Started?
    ensures Step(env, s, RefreshIfNeeded(now)).1.refreshCall.Some?
    ensures |Step(env, s, RefreshIfNeeded(now)).0.frames| == 2
    ensures !SingleFlight(Step(env, s, RefreshIfNeeded(now)).0)
  {
  }

  /** A direct call's refresh settling releases nothing: requests parked
      meanwhile stay on the queue although the flag is already clear, until
      some request's own refresh settles. */
  lemma DirectSettleLeavesQueueParked(env: Env, s: State, index: nat, outcome: Refresh.RefreshOutcome)
    requires index < |s.frames| && s.frames[index].Direct? && s.queue != []
    ensures var (after, out) := Step(env, s, RefreshSettles(index, outcome));
            && after.queue == s.queue && out.released == [] && !after.refreshing
            && !SingleFlight(after)
  {
  }

  /** A settled refresh always leaves the flag cleared, whatever it settled
      with, so a later request can start the next refresh. */
  lemma SettleClearsFlag(env: Env, s: State, index: nat, outcome: Refresh.RefreshOutcome)
    requires index < |s.frames|
    ensures !Step(env, s, RefreshSettles(index, outcome)).0.refreshing
    ensures |Step(env, s, RefreshSettles(index, outcome)).0.frames| == |s.frames| - 1
  {
    assert |s.frames[..index] + s.frames[index + 1..]| == |s.frames| - 1;
  }

  /** While a refresh is in flight, requests of a logged-in user are parked
      in arrival order and nothing else changes. */
  lemma {:induction false} ParkedInArrivalOrder(env: Env, s: State, requests: seq<Request>, now: real)
    requires s.refreshing
    requires TokenStore.IsLoggedIn(s.storage, env.config.storageKey, env.codec) == Ok(true)
    ensures Run(env, s, Intercepts(requests, now)) == s.(queue := s.queue + Builders(requests))
    ensures Calls(env, s, Intercepts(requests, now)) == 0
    decreases |requests|
  {
    var events := Intercepts(requests, now);
    if |requests| == 0 {
      assert s.queue + Builders(requests) == s.queue;
    } else {
      var s1 := s.(queue := s.queue + [PromiseBuilder(requests[0])]);
      assert Step(env, s, events[0]) == (s1, Output(None, [], None));
      assert events[1..] == Intercepts(requests[1..], now);
      ParkedInArrivalOrder(env, s1, requests[1..], now);
      assert s1.queue + Builders(requests[1..]) == s.queue + Builders(requests);
    }
  }

  /** Concurrent requests of a logged-in user whose access token needs a
      refresh: the first starts the one refresh, every other one is parked
      behind it. */
  lemma ConcurrentRequestsShareOneRefresh(env: Env, s: State, first: Request, rest: seq<Request>, now: real)
    requires SingleFlight(s) && !s.refreshing
    requires TokenStore.IsLoggedIn(s.storage, env.config.storageKey, env.codec) == Ok(true)
    requires BeginRefresh(env, s.storage, now).Started?
    ensures var after := Run(env, s, Intercepts([first] + rest, now));
            && after.refreshing && after.frames == [Intercepted(first)]
            && after.queue == Builders(rest) && after.storage == s.storage
    ensures Calls(env, s, Intercepts([first] + rest, now)) == 1
  {
    var events := Intercepts([first] + rest, now);
    var s1 := Step(env, s, events[0]).0;
    assert s1 == s.(refreshing := true, frames := [Intercepted(first)]);
    assert events[1..] == Intercepts(rest, now);
    ParkedInArrivalOrder(env, s1, rest, now);
    assert s1.queue + Builders(rest) == Builders(rest);
  }

  /** The refresh's outcome as the queue hands it on. */
  function QueueOutcome(res: Result<Token, Error>): Outcome {
    if res.Ok? then Fulfil(Some(res.value)) else Reject(res.error)
  }

  /** The settling of the one refresh in flight hands its outcome, as the
      request that started it sees it, to the whole queue. */
  lemma SettleReleasesQueue(env: Env, s: State, outcome: Refresh.RefreshOutcome)
    requires SingleFlight(s) && s.refreshing
    ensures var (after, out) := Step(env, s, RefreshSettles(0, outcome));
            var res := Refresh.Finish(s.storage, env.config.storageKey, env.codec, outcome).1;
            && after.queue == [] && !after.refreshing && after.frames == []
            && out.released == Release(s.queue, QueueOutcome(res))
            && out.reply == Some(if res.Ok? then Forward(Stamp(env.config, s.frames[0].request, Some(res.value)))
                                 else Threw(InterceptFailed(res.error)))
  {
    assert s.frames[0].Intercepted?;
    assert s.frames[..0] + s.frames[1..] == [];
  }

  /** When the refresh settles, every parked request is released once, in
      arrival order, with the same outcome as the request that started it;
      nothing stays parked and the flag is clear. */
  lemma ParkedShareTheOutcome(env: Env, s: State, requests: seq<Request>, now: real, outcome: Refresh.RefreshOutcome)
    requires SingleFlight(s) && s.refreshing
    requires TokenStore.IsLoggedIn(s.storage, env.config.storageKey, env.codec) == Ok(true)
    ensures var parked := Run(env, s, Intercepts(requests, now));
            var (after, out) := Step(env, parked, RefreshSettles(0, outcome));
            var res := Refresh.Finish(s.storage, env.config.storageKey, env.codec, outcome).1;
            && SingleFlight(after) && after.queue == []
            && |out.released| == |s.queue| + |requests|
            && (forall i :: 0 <= i < |requests| ==> out.released[|s.queue| + i].entry == PromiseBuilder(requests[i]))
            && (forall i :: 0 <= i < |out.released| ==> out.released[i].outcome == QueueOutcome(res))
            && out.reply == Some(if res.Ok? then Forward(Stamp(env.config, s.frames[0].request, Some(res.value)))
                                 else Threw(InterceptFailed(res.error)))
  {
    ParkedInArrivalOrder(env, s, requests, now);
    var parked := s.(queue := s.queue + Builders(requests));
    var res := Refresh.Finish(s.storage, env.config.storageKey, env.codec, outcome).1;
    SettleReleasesQueue(env, parked, outcome);
    var out := Step(env, parked, RefreshSettles(0, outcome)).1;
    ReleaseInOrder(parked.queue, QueueOutcome(res));
    assert |out.released| == |parked.queue|;
    forall i | 0 <= i < |requests| ensures out.released[|s.queue| + i].entry == PromiseBuilder(requests[i]) {
      assert parked.queue[|s.queue| + i] == Builders(requests)[i];
    }
  }

  /** A refresh that succeeds sends every parked request out with the
      token it returned. */
  lemma ParkedRequestsGetNewToken(env: Env, s: State, outcome: Refresh.RefreshOutcome)
    requires SingleFlight(s) && s.refreshing
    requires Refresh.Finish(s.storage, env.config.storageKey, env.codec, outcome).1.Ok?
    ensures var out := Step(env, s, RefreshSettles(0, outcome)).1;
            var token := Refresh.Finish(s.storage, env.config.storageKey, env.codec, outcome).1.value;
            && |out.released| == |s.queue|
            && forall i :: 0 <= i < |out.released| ==>
                 ParkedReply(env.config, out.released[i]) == Forward(Stamp(env.config, s.queue[i].request, Some(token)))
  {
    var res := Refresh.Finish(s.storage, env.config.storageKey, env.codec, outcome).1;
    SettleReleasesQueue(env, s, outcome);
    ReleaseInOrder(s.queue, QueueOutcome(res));
  }

  /** A refresh that fails fails the request that started it with the
      wrapped error, but every parked request with the TypeError of
      `.catch(Promise.reject)`. */
  lemma ParkedRequestsGetTypeError(env: Env, s: State, outcome: Refresh.RefreshOutcome)
    requires SingleFlight(s) && s.refreshing
    requires Refresh.Finish(s.storage, env.config.storageKey, env.codec, outcome).1.Err?
    ensures var out := Step(env, s, RefreshSettles(0, outcome)).1;
            var e := Refresh.Finish(s.storage, env.config.storageKey, env.codec, outcome).1.error;
            && out.reply == Some(Threw(InterceptFailed(e)))
            && |out.released| == |s.queue|
            && forall i :: 0 <= i < |out.released| ==> ParkedReply(env.config, out.released[i]) == Threw(ReceiverlessReject)
  {
    var res := Refresh.Finish(s.storage, env.config.storageKey, env.codec, outcome).1;
    SettleReleasesQueue(env, s, outcome);
    ReleaseInOrder(s.queue, QueueOutcome(res));
  }

  /** A released parked request carries the refreshed token in its header. */
  lemma ReleasedRequestIsStamped(config: Config, request: Request, token: Token)
    requires request.headers.Some?
    ensures var r := ParkedReply(config, Settlement(PromiseBuilder(request), Fulfil(Some(token))));
            && r.Forward? && r.request.id == request.id && r.request.headers.Some?
            && config.header in r.request.headers.value
            && r.request.headers.value[config.header] == config.headerPrefix + token
            && (forall h :: h != config.header && h in request.headers.value ==>
                  h in r.request.headers.value && r.request.headers.value[h] == request.headers.value[h])
  {
  }

  /** A user who is not logged in: every request passes through untouched. */
  lemma LoggedOutRequestPassesThrough(env: Env, s: State, request: Request, now: real)
    requires TokenStore.IsLoggedIn(s.storage, env.config.storageKey, env.codec) == Ok(false)
    ensures Step(env, s, Intercept(request, now)) == (s, Output(Some(Forward(request)), [], None))
  {
  }

  /** A logged-in user with an access token that is not about to expire:
      no refresh, and the stored access token goes in the header. */
  lemma ValidTokenIsAttached(env: Env, s: State, request: Request, now: real, token: Token)
    requires SingleFlight(s) && !s.refreshing
    requires TokenStore.IsLoggedIn(s.storage, env.config.storageKey, env.codec) == Ok(true)
    requires TokenStore.AccessToken(s.storage, env.config.storageKey, env.codec) == Ok(Some(token)) && token != ""
    requires Jwt.IsExpired(env.decode, token, env.config.leeway, now) == Ok(false)
    ensures Step(env, s, Intercept(request, now)) == (s, Output(Some(Forward(Stamp(env.config, request, Some(token)))), [], None))
  {
  }

  /** A stored access token the decoder cannot read fails the request with
      the wrapped decoder error, and every parked request is declined with
      that error. */
  lemma UndecodableTokenFailsRequest(env: Env, s: State, request: Request, now: real, token: Token)
    requires !s.refreshing
    requires TokenStore.IsLoggedIn(s.storage, env.config.storageKey, env.codec) == Ok(true)
    requires TokenStore.AccessToken(s.storage, env.config.storageKey, env.codec) == Ok(Some(token)) && token != ""
    requires env.decode(token).None?
    ensures var r := Step(env, s, Intercept(request, now));
            r.0 == s.(queue := []) &&
            r.1.reply == Some(Threw(InterceptFailed(TokenUndecodable(token)))) && r.1.refreshCall.None? &&
            r.1.released == Release(s.queue, Reject(TokenUndecodable(token)))
  {
  }

  /** A stored pair whose access token is about to expire is refreshed with
      the stored pair; the new pair is stored and the request goes out with
      the new access token. */
  lemma ExpiredTokenIsRefreshed(env: Env, storage: TokenStore.Storage, request: Request, now: real,
                                old_: Tokens, new_: Tokens)
    requires Lawful(env.codec)
    requires TokenStore.Read(storage, env.config.storageKey, env.codec) == Ok(Some(old_))
    requires old_.accessToken != "" && old_.refreshToken != "" && new_.accessToken != ""
    requires Jwt.IsExpired(env.decode, old_.accessToken, env.config.leeway, now) == Ok(true)
    ensures var (s1, out1) := Step(env, Initial(storage), Intercept(request, now));
            var (s2, out2) := Step(env, s1, RefreshSettles(0, Refresh.Resolved(Refresh.NewPair(new_))));
            && out1 == Output(None, [], Some(old_)) && s1.refreshing
            && out2.reply == Some(Forward(Stamp(env.config, request, Some(new_.accessToken))))
            && out2.released == []
            && TokenStore.Read(s2.storage, env.config.storageKey, env.codec) == Ok(Some(new_))
            && s2 == Initial(s2.storage)
  {
    var outcome := Refresh.Resolved(Refresh.NewPair(new_));
    Refresh.FinishIsSettle(storage, env.config.storageKey, env.codec, outcome);
    Refresh.NewPairIsStored(storage, env.config.storageKey, env.codec, new_);
    assert [Intercepted(request)][..0] + [Intercepted(request)][1..] == [];
  }

  /** A refresh refused with 401 or 422 logs the user out, fails the
      request, and lets later requests through without a header. */
  lemma AuthFailureLogsOut(env: Env, s: State, request: Request, now: real, status: int, message: string,
                           later: Request, later_now: real)
    requires SingleFlight(s) && s.refreshing
    requires Refresh.IsAuthStatus(status)
    ensures var (s2, out2) := Step(env, s, RefreshSettles(0, Refresh.Rejected(Refresh.AxiosError(Some(status), message))));
            && out2.reply == Some(Threw(InterceptFailed(AuthRejected(status))))
            && (forall i :: 0 <= i < |out2.released| ==> out2.released[i].outcome == Reject(AuthRejected(status)))
            && TokenStore.IsLoggedIn(s2.storage, env.config.storageKey, env.codec) == Ok(false)
            && Step(env, s2, Intercept(later, later_now)) == (s2, Output(Some(Forward(later)), [], None))
  {
    var key := env.config.storageKey;
    var outcome := Refresh.Rejected(Refresh.AxiosError(Some(status), message));
    Refresh.AuthRejectionLogsOut(s.storage, key, env.codec, status, message);
    assert Refresh.Finish(s.storage, key, env.codec, outcome) == (s.storage - {key}, Err(AuthRejected(status)));
    assert s.frames[0].Intercepted?;
    ReleaseInOrder(s.queue, Reject(AuthRejected(status)));
  }

  /** A refresh that resolves with `null` fails the request and every parked
      request, and the stored pair stays: the user is still logged in. */
  lemma NullRefreshKeepsPair(env: Env, s: State)
    requires SingleFlight(s) && s.refreshing
    ensures var (s2, out2) := Step(env, s, RefreshSettles(0, Refresh.Resolved(Refresh.Null)));
            var e := RefreshFailed(NullRefreshResult);
            && out2.reply == Some(Threw(InterceptFailed(e)))
            && (forall i :: 0 <= i < |out2.released| ==> out2.released[i].outcome == Reject(e))
            && s2.storage == s.storage && !s2.refreshing
  {
    assert s.frames[0].Intercepted?;
    ReleaseInOrder(s.queue, Reject(RefreshFailed(NullRefreshResult)));
  }
}
