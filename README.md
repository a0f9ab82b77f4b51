# axios-jwt, modelled in Dafny

axios-jwt is an axios request interceptor. It stores an access/refresh token
pair in a key/value storage and stamps each outgoing request with the access
token. When that token is missing or about to expire, it first refreshes the
pair through the integrator's `requestRefresh` callback. Only one refresh
runs at a time: while it is in flight, later requests wait on a queue, and
all of them are released together with its outcome.

This project models:

- `TokenInterceptor`, the refresh coordinator;
- the older `TokenStorage` class;
- the request queue;
- the expiry test on the token's `exp` claim;
- the in-memory storage adapter;
- the string logic of the cookie storage adapter.

It then proves properties of that model.

Files and modules:

- `types.dfy` (`Types`): `Option`, `Result`, the token pair, a request, and the errors the library throws.
- `strings.dfy` (`Strings`): the parts of JavaScript's `String` the code relies on: number-to-text, `split`, `trim`, and a distinct-elements predicate.
- `json.dfy` (`Json`): `JSON.stringify`/`JSON.parse` on token pairs.
  - They are a codec parameter; `Lawful` states the round trip that real JSON satisfies.
- `jwt.dfy` (`Jwt`): `getTimestamp`, `getExpiresIn` and `isExpired`, plus the no-leeway call of `src/index.ts`.
  - jwt-decode is a parameter, and so is the clock reading.
- `request_queue.dfy` (`RequestQueue`): class `Queue` and `Release`, the callbacks a release makes.
- `token_store.dfy` (`TokenStore`): the token accessors both classes share word for word.
  - `tokens`, `accessToken`, `refreshToken`, the getters and setters, `isLoggedIn` and clear.
  - They operate on the storage's contents.
- `refresh.dfy` (`Refresh`): the refresh call shared by `doRefresh` and `refreshTokens`.
  - The guard, then the sorting of the settled promise into a stored result, a logout or an error.
- `token_interceptor.dfy` (`Interceptor`): a step function over the interceptor's state, and class `TokenInterceptor`.
  - Each method of the class is proved to perform its step.
- `interceptor_properties.dfy` (`InterceptorProperties`): properties of runs of steps.
  - Single flight, queue order and shared outcomes, and end-to-end scenarios.
  - `Intercepts` and `Builders` are scenario helpers: they turn a list of requests into events, and into the queue entries those requests become.
- `token_storage.dfy` (`Legacy`): class `TokenStorage` of `src/index.ts` and its own steps.
- `memory_storage.dfy` (`Memory`): class `MemoryStorage`.
- `cookie_storage.dfy` (`Cookies`): the cookie string `setItem` builds, and the parse of `document.cookie`.

Asynchrony is modelled as steps:

- Most async calls run from one `await` to the next as a single step.
- Two continuations are merged into the step before them (see "## Left out"):
  - the interceptor's release of the queue after `await this.refreshTokenIfNeeded()`;
  - the release after a settling refresh's `finally`.
- A refresh suspended at `await requestRefresh(...)` is a *frame* of the interceptor state.
- The step `RefreshSettles(i, outcome)` is frame `i`'s promise settling. `outcome` is the integrator's answer (a pair, a string, `null`, another value, or a rejection).

Foreign code is passed in as parameters and never modelled:

- JSON;
- jwt-decode;
- `encodeURIComponent`/`decodeURIComponent`;
- the clock;
- `requestRefresh`.

The model follows the code where its behaviour is easy to misread:

- A refresh that resolves with `null` does not log the user out. Reading `accessToken` of `null` throws a TypeError, which `doRefresh` wraps, and the stored pair stays (`NullResultIsAnError`, `NullRefreshKeepsPair`).
- `src/index.ts` calls `isExpired` without a leeway.
  - `expiresIn <= undefined` is false.
  - So only an empty token, or one due at exactly this second, counts as expired.
  - A token whose expiry has passed is used as it is (`NoLeewayMissesPastExpiry`, `PastExpiryIsNotRefreshed`).
- The public `refreshTokenIfNeeded` does not consult the refresh flag. A direct call during a refresh starts a second one (`DirectCallStartsSecondRefresh`). Single flight is proved only for requests through the interceptor and the accessors.
- A parked request does not receive the refresh error when the refresh fails.
  - Its promise is chained with `.catch(Promise.reject)`, which calls `reject` detached from `Promise`.
  - So it fails with that call's TypeError instead of the refresh error (`ParkedRequestsGetTypeError`).
- `key(index)` of both storage adapters returns the value stored under the index-th key, not the key.
  - Out of range, it looks up the key `"undefined"`.
- The cookie parse throws on a segment without `=`.
  - So does the empty `document.cookie` of a page without cookies (`EmptyHeaderThrows`).
  - A later duplicate name overwrites the earlier value and keeps the earlier position.

## Model

| member | source | states |
|---|---|---|
| Strings.NatToString | src/adapters/cookie-storage.ts:80 | the decimal text of a number is a non-empty digit string that starts with 0 only for 0 |
| Strings.IntToString | src/adapters/cookie-storage.ts:80 | the text of an integer is non-empty and starts with `-` iff the integer is negative |
| Strings.NatToStringRoundTrip | src/adapters/cookie-storage.ts:80 | reading the decimal text back gives the number |
| Strings.IntToStringRoundTrip | src/adapters/cookie-storage.ts:80 | after the sign of a negative integer, the text is digits that read back as the magnitude; a non-negative integer's text reads back as itself |
| Strings.Split | src/adapters/cookie-storage.ts:88-90 | `split` yields at least one piece, and no piece contains the separator |
| Strings.JoinSplit | src/adapters/cookie-storage.ts:88-90 | joining the pieces of a split with the separator gives the original string back |
| Strings.SplitWithoutSeparator | src/adapters/cookie-storage.ts:90 | a string without the separator splits into itself alone |
| Strings.SplitIsOnePiece | src/adapters/cookie-storage.ts:90-94 | a split has exactly one piece iff the separator does not occur |
| Strings.Trim | src/adapters/cookie-storage.ts:94 | the result is the stretch of the input after its leading ECMAScript whitespace; everything before and after that stretch is whitespace, the stretch neither starts nor ends with whitespace, and an input without whitespace is its own result |
| Strings.DistinctCardinality | src/adapters/memory-storage.ts:6-8 | a list without repeats has as many elements as its set, so a key list's length is the record's size |
| Jwt.GetTimestamp | src/lib/token.ts:5-8 | the value is the `exp` claim of the decoded token; an undecodable token throws |
| Jwt.GetExpiresIn | src/lib/token.ts:10-14 | seconds from now until the claim; -1 without a claim or with a zero claim; throws when the decoder throws |
| Jwt.IsExpired | src/lib/token.ts:16-21 | an empty token is expired; a token with a claim is expired iff it is due now or within the leeway; a token without a claim is expired iff the leeway is at least -1 |
| Jwt.IsExpiredNoLeeway | src/index.ts:96 | with no leeway, a non-empty token is expired iff its claim is due at exactly this second |
| Jwt.ExpiredIsMonotone | src/lib/token.ts:13-20 | a token expired for a non-negative leeway stays expired for any larger leeway and at any later time |
| Jwt.FreshTokenIsNotExpired | __tests__/token.test.ts:6-19 | a token with 1200 seconds left is not expired with a leeway of 300 |
| Jwt.ZeroLifetimeTokenIsExpired | __tests__/token.test.ts:10-24 | a token signed with a lifetime of 0, read at or after signing, is expired for any non-negative leeway |
| Jwt.NoLeewayMissesPastExpiry | src/index.ts:96 | without a leeway a token past its expiry, or without a claim, is not expired, though with leeway 0 it is |
| RequestQueue.ReleaseInOrder | src/lib/request-queue.ts:17-25 | a release calls each entry exactly once, in array order, all with the same outcome |
| RequestQueue.ReleaseAppend | src/token-interceptor.ts:120-134 | requests parked later only add their callbacks after the earlier ones |
| RequestQueue.Queue.constructor | src/lib/request-queue.ts:13-15 | the given list, empty by default, becomes the queue |
| RequestQueue.Queue.Enqueue | src/token-interceptor.ts:122 | the parked request is appended at the tail |
| RequestQueue.Queue.Resolve | src/lib/request-queue.ts:17-20 | every entry is resolved with the token, in order, and the queue is emptied |
| RequestQueue.Queue.Decline | src/lib/request-queue.ts:22-25 | every entry is rejected with the error, in order, and the queue is emptied |
| RequestQueue.Queue.ForEach | src/lib/request-queue.ts:18 | the loop makes exactly the callbacks of `Release`, in queue order, without changing the queue |
| TokenStore.Read | src/token-interceptor.ts:44-56 | no pair iff the record is absent or empty; a record that does not parse throws a parse error naming the text; otherwise the parsed pair |
| TokenStore.Write | src/token-interceptor.ts:58-65 | a pair is stored whole as its JSON text, no pair removes the record, and no other key changes |
| TokenStore.AccessToken | src/token-interceptor.ts:67-69 | the access token of the stored pair, undefined without a pair, the parse error otherwise |
| TokenStore.RefreshToken | src/token-interceptor.ts:85-87 | the refresh token of the stored pair, undefined without a pair, the parse error otherwise |
| TokenStore.SetAccessToken | src/token-interceptor.ts:71-83 | a falsy token changes nothing; with no stored pair it throws; otherwise the pair is rewritten with the new access token and the old refresh token |
| TokenStore.SetRefreshToken | src/token-interceptor.ts:89-101 | a falsy token changes nothing; with no stored pair it throws; otherwise the pair is rewritten with the old access token and the new refresh token |
| TokenStore.IsLoggedIn | src/token-interceptor.ts:103-105 | logged in iff a pair with a non-empty refresh token is stored; a parse error propagates |
| TokenStore.Clear | src/token-interceptor.ts:107-109 | the record, and nothing else, is removed |
| TokenStore.ReadAfterWrite | __tests__/interceptor.test.ts:46-57 | a pair written is the pair read back |
| TokenStore.LoggedInAfterWrite | __tests__/interceptor.test.ts:59-62 | storing a pair with a non-empty refresh token logs the user in |
| TokenStore.ClearIsIdempotent | __tests__/interceptor.test.ts:28-44 | after a clear no pair is stored and nobody is logged in; a second clear changes nothing |
| TokenStore.SetAccessTokenKeepsRefreshToken | src/token-interceptor.ts:71-83 | a successful access-token update reads back as the new access token with the unchanged refresh token |
| TokenStore.SetRefreshTokenKeepsAccessToken | src/token-interceptor.ts:89-101 | a successful refresh-token update reads back as the unchanged access token with the new refresh token |
| TokenStore.SetSameAccessTokenIsNoOp | src/token-interceptor.ts:165 | setting the access token already stored leaves the storage exactly as it was |
| Refresh.Start | src/token-interceptor.ts:172-176 | the refresh proceeds, with the stored pair, iff the user is logged in; otherwise it throws the no-refresh-token error or the parse error |
| Refresh.Settle | src/token-interceptor.ts:178-216 | only the token record can change; a pair with an access token replaces it, a string goes through the access-token setter, 401/422 remove it, and a removal (`AuthRejected`) happens only on a 401/422 axios rejection, so every other failure leaves it; success iff a usable pair or a storable string came back; every error is wrapped |
| Refresh.FinishIsSettle | src/token-interceptor.ts:163-166 | writing the refreshed token again after the refresh changes neither the storage nor the result |
| Refresh.Finish | src/token-interceptor.ts:163-166 | a failed refresh is reported as it is; a token returned is the one the refresh produced; a failing second write keeps the storage the refresh left |
| Refresh.RefreshedTokenIsStored | src/token-interceptor.ts:182-188 | a non-empty token a refresh returns is the access token stored afterwards |
| Refresh.NewPairIsStored | src/token-interceptor.ts:182-184 | a new pair is returned and is the stored pair afterwards |
| Refresh.NewAccessTokenKeepsRefreshToken | src/token-interceptor.ts:185-187 | a bare string replaces only the access token; the refresh token stays |
| Refresh.AuthRejectionLogsOut | src/token-interceptor.ts:193-201 | an axios error with status 401 or 422 removes the pair and logs the user out |
| Refresh.NullResultIsAnError | src/token-interceptor.ts:182-192 | a `null` result is a wrapped error and the storage is unchanged |
| Interceptor.MergeConfig | src/token-interceptor.ts:27-37 | each option given replaces its default; every other field keeps the default |
| Interceptor.BeginRefresh | src/token-interceptor.ts:159-180 | a stored, non-empty, unexpired access token is returned at once; a missing, empty or expiring one starts the refresh with the stored pair of a logged-in user, or fails with the no-refresh-token or parse error; a read or decode error fails; and each result implies its cause |
| Interceptor.Stamp | src/token-interceptor.ts:125-129 | a request with headers gets `headerPrefix + token` under the configured header and keeps its other headers and its id; one without headers is unchanged |
| Interceptor.ParkedReply | src/token-interceptor.ts:121-133 | a resolved parked request goes on stamped with the token it was given; a rejected one throws the TypeError of `.catch(Promise.reject)` |
| Interceptor.Resume | src/token-interceptor.ts:139-156 | the queue is emptied, every parked request is resolved with the token in parking order, and the request goes on stamped with it |
| Interceptor.Abort | src/token-interceptor.ts:141-147 | the queue is emptied, every parked request is rejected with the error in parking order, and the request throws the wrapped error |
| Interceptor.InterceptStep | src/token-interceptor.ts:115-157 | a request never writes the storage; a read error throws; without a refresh token it goes on untouched; while a refresh is in flight it is parked at the tail; it calls `requestRefresh` iff none is in flight and a refresh starts, and then it is suspended as a new frame; with a usable token it resolves the queue with that token and goes on stamped; when the token cannot be used (a read, decode or guard error) it declines the queue with the error and throws it wrapped |
| Interceptor.DirectStep | src/token-interceptor.ts:159-169 | a direct call never parks or releases anything; it calls `requestRefresh` iff `BeginRefresh` starts one, whatever the flag; otherwise it returns the token or throws without changing the state |
| Interceptor.SettleStep | src/token-interceptor.ts:136-156 | a settling frame lowers the flag, is removed, and leaves the storage `Finish` gives; a direct call returns or throws and leaves the queue parked; a request releases the whole queue with its result; an index with no frame changes nothing |
| Interceptor.Step | src/token-interceptor.ts:58-169 | the accessors touch only the storage and always return; only a request or a direct call starts a refresh; a direct call leaves the queue alone |
| Interceptor.TokenInterceptor.constructor | src/token-interceptor.ts:34-38 | the merged configuration, the given storage, a clear flag, an empty queue and no refresh in flight |
| Interceptor.TokenInterceptor.SetTokens | src/token-interceptor.ts:58-65 | the storage becomes `Write` of the old storage; flag and frames unchanged |
| Interceptor.TokenInterceptor.SetAccessToken | src/token-interceptor.ts:71-83 | the storage is updated as `SetAccessToken` says, or stays and the error is returned |
| Interceptor.TokenInterceptor.SetRefreshToken | src/token-interceptor.ts:89-101 | the storage is updated as `SetRefreshToken` says, or stays and the error is returned |
| Interceptor.TokenInterceptor.ClearTokens | src/token-interceptor.ts:107-109 | the storage loses the record; nothing else changes |
| Interceptor.TokenInterceptor.BeginRefreshTokenIfNeeded | src/token-interceptor.ts:159-180 | the result of `BeginRefresh`; a started refresh sets the flag and records one suspended call, anything else changes nothing |
| Interceptor.TokenInterceptor.SettleDoRefresh | src/token-interceptor.ts:180-216 | the storage and result are those of `Refresh.Settle`, and the flag is cleared whatever the outcome |
| Interceptor.TokenInterceptor.Intercept | src/token-interceptor.ts:115-157 | the new state and output are those of `InterceptStep`: pass through when logged out, park while refreshing, otherwise stamp, release or start a refresh |
| Interceptor.TokenInterceptor.RefreshTokenIfNeeded | src/token-interceptor.ts:159-169 | the new state and output are those of `DirectStep`; the queue is untouched |
| Interceptor.TokenInterceptor.Settle | src/token-interceptor.ts:136-156 | the new state and output are those of `SettleStep`: the frame is removed, the refresh is finished, and for an intercepted request the queue is released |
| InterceptorProperties.StepKeepsSingleFlight | src/token-interceptor.ts:118-148 | every step except a direct `refreshTokenIfNeeded` keeps single flight: at most one refresh in flight, started by the interceptor, the flag set iff one is, and nothing parked otherwise |
| InterceptorProperties.RunKeepsSingleFlight | src/token-interceptor.ts:118-148 | any sequence of such steps keeps single flight |
| InterceptorProperties.RefreshCallOnlyWhenIdle | src/token-interceptor.ts:120-138 | the interceptor calls `requestRefresh` only when no refresh is in flight, and then exactly one is |
| InterceptorProperties.StepFrames | src/token-interceptor.ts:179-180 | each step adds one suspended call per `requestRefresh` call and removes one per refresh that settles |
| InterceptorProperties.FramesBalance | src/token-interceptor.ts:179-216 | over any run, suspended calls at the end plus settled refreshes equal suspended calls at the start plus calls made |
| InterceptorProperties.AtMostOneRefreshInFlight | src/token-interceptor.ts:118-148 | over any interleaving through the interceptor, `requestRefresh` is called at most once more than the number of refreshes that settled |
| InterceptorProperties.DirectCallStartsSecondRefresh | src/token-interceptor.ts:159-169 | a direct `refreshTokenIfNeeded` during a refresh calls `requestRefresh` again and breaks single flight |
| InterceptorProperties.DirectSettleLeavesQueueParked | src/token-interceptor.ts:159-169 | a direct call's refresh settling releases nothing: requests parked meanwhile stay parked with the flag already clear, so single flight no longer holds |
| InterceptorProperties.SettleClearsFlag | src/token-interceptor.ts:214-216 | every settled refresh clears the flag, whatever its outcome |
| InterceptorProperties.ParkedInArrivalOrder | src/token-interceptor.ts:120-134 | during a refresh, a logged-in user's requests are parked in arrival order, with no other change and no refresh call |
| InterceptorProperties.ConcurrentRequestsShareOneRefresh | src/token-interceptor.ts:118-138 | of concurrent requests that need a refresh, the first starts the only refresh and the rest are parked behind it |
| InterceptorProperties.SettleReleasesQueue | src/token-interceptor.ts:136-148 | when a refresh settles, the whole queue is released with the starter's outcome, and the queue, flag and frames end empty |
| InterceptorProperties.ParkedShareTheOutcome | src/token-interceptor.ts:120-148 | every parked request is released once, in arrival order, with the same outcome as the starter, and single flight holds afterwards |
| InterceptorProperties.ParkedRequestsGetNewToken | src/token-interceptor.ts:123-131 | after a successful refresh every parked request goes out stamped with the new token |
| InterceptorProperties.ParkedRequestsGetTypeError | src/token-interceptor.ts:133 | after a failed refresh the starter fails with the wrapped error, and every parked request with the TypeError of `.catch(Promise.reject)` |
| InterceptorProperties.ReleasedRequestIsStamped | src/token-interceptor.ts:125-130 | a released request carries `headerPrefix + token` under the configured header, with its other headers unchanged |
| InterceptorProperties.LoggedOutRequestPassesThrough | src/token-interceptor.ts:118 | without a refresh token a request goes out untouched and nothing changes |
| InterceptorProperties.ValidTokenIsAttached | src/token-interceptor.ts:150-156 | with an unexpired access token there is no refresh, and the stored token is stamped |
| InterceptorProperties.UndecodableTokenFailsRequest | src/token-interceptor.ts:137-147 | an access token the decoder cannot read fails the request with the wrapped decoder error and declines every parked request with it, in order |
| InterceptorProperties.ExpiredTokenIsRefreshed | src/token-interceptor.ts:159-188 | an expiring token triggers a refresh with the stored pair; the new pair is stored, the request carries the new token, and the interceptor is idle again |
| InterceptorProperties.AuthFailureLogsOut | src/token-interceptor.ts:193-201 | a 401/422 refresh fails the request and the parked ones, logs the user out, and later requests pass untouched |
| InterceptorProperties.NullRefreshKeepsPair | src/token-interceptor.ts:182-192 | a `null` refresh fails the request and the parked ones, while the pair stays stored and the flag clears |
| Legacy.BeginRefresh | src/index.ts:93-113 | a stored, non-empty token not due by the no-leeway test is returned at once; a missing, empty or due one starts the refresh with the stored pair of a logged-in user, or fails with the no-refresh-token or parse error; a read or decode error fails; and each result implies its cause |
| Legacy.BeginStep | src/index.ts:93-113 | nothing is written before the suspension; a started refresh raises the flag and adds one call in flight; any other result leaves the state as it was |
| Legacy.SettleStep | src/index.ts:97-101 | with no call in flight nothing happens; otherwise the flag is lowered, one call leaves, and the storage and result are those of `Finish` |
| Legacy.PastExpiryIsNotRefreshed | src/index.ts:96 | a token whose claim lies in the past is returned as it is and nothing is refreshed, though it is expired for leeway 0 |
| Legacy.NoRefreshTokenNoCall | src/index.ts:105-109 | without a refresh token no refresh starts and nothing changes; a failure is the no-refresh-token or decode error |
| Legacy.SettleClearsFlag | src/index.ts:147-149 | a settled refresh clears the flag and removes its suspended call |
| Legacy.OverlappingCallsRefreshTwice | src/index.ts:93-113 | a second call while a refresh is in flight calls `requestRefresh` again with the same pair |
| Legacy.TokenStorage.constructor | src/index.ts:19-25 | the given storage, a clear flag and no refresh in flight |
| Legacy.TokenStorage.SetTokens | src/index.ts:41-48 | the storage becomes `Write` of the old storage under the fixed key |
| Legacy.TokenStorage.SetAccessToken | src/index.ts:53-65 | the storage is updated as `SetAccessToken` says, or stays and the error is returned |
| Legacy.TokenStorage.SetRefreshToken | src/index.ts:71-83 | the storage is updated as `SetRefreshToken` says, or stays and the error is returned |
| Legacy.TokenStorage.Clear | src/index.ts:89-91 | the record under the fixed key is removed |
| Legacy.TokenStorage.RefreshTokenIfNeeded | src/index.ts:93-113 | the new state and result are those of `BeginStep`; the flag is not consulted |
| Legacy.TokenStorage.Settle | src/index.ts:97-101 | the new state and result are those of `SettleStep` |
| Legacy.TokenStorage.SettleRefreshTokens | src/index.ts:113-149 | the storage and result are those of `Refresh.Settle`, and the flag is cleared |
| Memory.Without | src/adapters/memory-storage.ts:29-31 | the key list without the removed key, in the same order and still without repeats |
| Memory.MemoryStorage.constructor | src/adapters/memory-storage.ts:4 | the storage starts as the empty record |
| Memory.MemoryStorage.Length | src/adapters/memory-storage.ts:6-8 | the number of stored keys |
| Memory.MemoryStorage.GetItem | src/adapters/memory-storage.ts:18-20 | the stored value, or null for an absent key |
| Memory.MemoryStorage.Key | src/adapters/memory-storage.ts:14-16 | the value under the index-th key; out of range, the value under `"undefined"` |
| Memory.MemoryStorage.SetItem | src/adapters/memory-storage.ts:18-27 | the key holds the string, or the JSON of a pair, and `getItem` returns it, parsing back to the pair under a lawful codec; every other key reads as before; a new key goes last; the length grows by one exactly for a new key |
| Memory.MemoryStorage.RemoveItem | src/adapters/memory-storage.ts:29-31 | the key and its value are gone, and the other keys keep their order |
| Memory.MemoryStorage.Clear | src/adapters/memory-storage.ts:10-12 | the record is empty and the length is 0 |
| Cookies.ParseOptionName | src/adapters/cookie-storage.ts:35-41 | `maxAge` is written `max-age` and `sameSite` `same-site`; every other option under its own name |
| Cookies.ParseOptionNameIsInjective | src/adapters/cookie-storage.ts:35-41 | different options never share an attribute name |
| Cookies.WithoutPath | src/adapters/cookie-storage.ts:70 | exactly the caller's options other than `path`; options without a `path` come through unchanged |
| Cookies.WithoutPathAppend | src/adapters/cookie-storage.ts:70 | dropping `path` commutes with appending: an appended option survives exactly when it is not `path`, and it comes after the earlier survivors |
| Cookies.PathValue | src/adapters/cookie-storage.ts:70 | the caller's `path` value when one is given, otherwise `/` |
| Cookies.MergeOptions | src/adapters/cookie-storage.ts:70 | `path` comes first with the caller's value or `/`, followed by the other options in their order |
| Cookies.WithoutPathDistinct | src/adapters/cookie-storage.ts:70 | the spread of an object without `path` still names each property at most once |
| Cookies.MergedAttributesDistinct | src/adapters/cookie-storage.ts:70-82 | for an options object, each attribute name appears at most once in the cookie string, `path` included |
| Cookies.Build | src/adapters/cookie-storage.ts:72-82 | the attributes only extend the base `key=value` text |
| Cookies.Attribute | src/adapters/cookie-storage.ts:76-81 | an attribute is `; ` and the option's attribute name, then nothing for the value `true` and `=` with the value's text for any other value |
| Cookies.SetItem | src/adapters/cookie-storage.ts:66-85 | the cookie string is the encoded pair followed by the attributes of the merged options |
| Cookies.CookieString | src/adapters/cookie-storage.ts:66-85 | the cookie string starts with the encoded `key=value` |
| Cookies.AppendAttributes | src/adapters/cookie-storage.ts:75-82 | the loop appends `; name`, then `=value` unless the value is `true`, for every option in turn |
| Cookies.AttributeStep | src/adapters/cookie-storage.ts:76-81 | the loop's append of `; name` and, unless the value is `true`, of `=value` together add exactly the option's attribute |
| Cookies.RemoveItem | src/adapters/cookie-storage.ts:60-64 | `removeItem` writes the key with an empty value, `; path=/` and `; max-age=-1` |
| Cookies.ExpiredCookieAttributes | src/adapters/cookie-storage.ts:60-64 | the options `{ maxAge: -1 }` produce `; path=/; max-age=-1` |
| Cookies.PathComesFirst | src/adapters/cookie-storage.ts:70-76 | every cookie string starts with the encoded pair, then the `path` attribute |
| Cookies.SecureFlagAttributes | src/adapters/cookie-storage.ts:79-81 | `secure: true` is a bare `; secure`, while `secure: false` is `; secure=false` |
| Cookies.AddCookie | src/adapters/cookie-storage.ts:92-95 | a name takes the new value; an existing name keeps its place and a new name goes last; the jar stays well formed |
| Cookies.ParseSegment | src/adapters/cookie-storage.ts:90-94 | a segment throws iff it has no `=`; otherwise name and value are the decoded, trimmed pieces before the first `=` and between the first and second |
| Cookies.Pairs | src/adapters/cookie-storage.ts:88-90 | one pair per segment when none throws |
| Cookies.FirstWithoutValue | src/adapters/cookie-storage.ts:90-94 | the index of the first segment without `=`: every earlier segment has one, and it is the length when all do |
| Cookies.PairsError | src/adapters/cookie-storage.ts:88-94 | the pairs throw iff some segment has no `=`, and then with the error of the first such segment |
| Cookies.PairsAt | src/adapters/cookie-storage.ts:88-94 | the i-th pair is the parse of the i-th segment |
| Cookies.Fold | src/adapters/cookie-storage.ts:91-97 | the reduce yields a well-formed jar: each name listed once, exactly the names with values |
| Cookies.LastPairWins | src/adapters/cookie-storage.ts:91-96 | a name ends with the value of the last pair that sets it |
| Cookies.FirstIndex | src/adapters/cookie-storage.ts:91-96 | the position of the first pair that sets a name: it sets the name and no earlier pair does |
| Cookies.FoldNames | src/adapters/cookie-storage.ts:91-97 | the names of the reduce are exactly the names the pairs set, listed in the order of the pair that first sets each |
| Cookies.Parse | src/adapters/cookie-storage.ts:87-98 | the `cookies` getter throws iff some segment of the header has no `=`, with the error of the first such segment; otherwise it gives a well-formed jar |
| Cookies.PairKeys | src/adapters/cookie-storage.ts:88-94 | pair i carries segment i's trimmed, decoded name, so a name occurs among the pairs iff some segment sets it |
| Cookies.ParseNames | src/adapters/cookie-storage.ts:87-98 | the getter's names are exactly the names the segments set, each once, in the order of the segment that first sets it |
| Cookies.LastSegmentWins | src/adapters/cookie-storage.ts:87-98 | in a header, each name ends with the value of the last segment that sets it |
| Cookies.EmptyHeaderThrows | src/adapters/cookie-storage.ts:87-98 | an empty `document.cookie` makes the getter throw |
| Cookies.Length | src/adapters/cookie-storage.ts:44-46 | the number of distinct cookie names, or the parse error |
| Cookies.GetItem | src/adapters/cookie-storage.ts:52-54 | a cookie's value, undefined for an absent name, or the parse error |
| Cookies.Key | src/adapters/cookie-storage.ts:56-58 | the value of the index-th cookie name; out of range, the value under `"undefined"` |
| Cookies.Clear | src/adapters/cookie-storage.ts:48-50 | `clear` always throws "not implemented" |

## Left out

These are things the core does that the model does not:

- The leeway of `ms()`:
  - `src/token-interceptor.ts:161` passes the configured leeway through `ms()`. For a number argument `ms()` returns a string, so `isExpired` would compare against `NaN`.
  - The model takes the leeway as a number of seconds, default 10, and does not model `ms()`.
  - String leeways are not modelled either.
- `apply`: it registers the interceptor with an axios instance, which is axios's code.
- `queue.enqueue`:
  - The interceptor calls `this.queue.enqueue`, but `src/lib/request-queue.ts` defines only `resolve` and `decline`.
  - As written, the first request that finds a refresh in flight throws a TypeError inside its promise executor, so its promise rejects.
  - `RequestQueue.Queue.Enqueue` models the evident intent, an append at the tail; the model does not model the TypeError.
- Microtask ordering within a step. Two continuations after an `await` are merged into the step before them:
  - A settling refresh (`Interceptor.SettleStep`) clears the flag, stores the token and releases the queue as one step. JavaScript can run other microtasks between `finally` and the release.
  - `Interceptor.InterceptStep` on its Ready and Failed paths: when no refresh starts, `refreshTokenIfNeeded` still returns a promise (`src/token-interceptor.ts:139`). The interceptor calls `this.queue.resolve` or `this.queue.decline` (`:140`, `:143`) only in a later microtask. The model does both in the step that reads the token.
  - What the model therefore does not capture, for example:
    1. Request R1 reads an unexpired token and suspends at `:139`.
    2. `setTokens` stores a pair whose access token is due.
    3. Request R2 starts a refresh, and request R3 parks behind it.
    4. R1 resumes and releases R3 with R1's old token while R2's refresh is still in flight.
  - No step of the model corresponds to that last release. So `InterceptorProperties.ParkedShareTheOutcome` and the single-flight invariant (`InterceptorProperties.RunKeepsSingleFlight`, `InterceptorProperties.AtMostOneRefreshInFlight`) hold only of runs where these continuations follow their step at once. In the source, a parked request can be released with a token other than the outcome of the refresh it waited for.
- Runs through the public `refreshTokenIfNeeded`:
  - Single flight (`InterceptorProperties.AtMostOneRefreshInFlight`) is stated only for runs without direct calls.
  - The bypass is proved instead of excluded.
- JSON is abstract:
  - The grammar of JSON is not modelled.
  - A stored record is either a pair or unparseable; records that parse to other values, or to partial pairs, are not modelled.
  - A refresh that resolves with an object whose `accessToken` is truthy but which lacks `refreshToken` (such as `{ accessToken: "x" }`) passes the test at `src/token-interceptor.ts:182`. The source stores that partial record (`:183`), and the user then reads as logged out. `Refresh.RefreshValue` cannot express that result: `NewPair` always carries both fields, and `OtherShape` stands only for values without a truthy `accessToken`.
  - A parse error other than `SyntaxError` is not modelled. In the source it would be swallowed.
- Options passed with an explicit `undefined` value: those overwrite defaults in the spread, and are not modelled (an option is either given or absent).
- Object keys that look like integers:
  - JavaScript lists such keys first, in numeric order; the model keeps insertion order.
  - This affects `key(index)` of both storage adapters.
- Names inherited from `Object.prototype` (such as `toString`) are treated as absent keys.
- The browser's `document.cookie`:
  - Expiry, paths and the attribute handling are the browser's.
  - `setItem` returns the string it would assign, and the reading members take the header as input.
- `encodeURIComponent` and `decodeURIComponent` are parameters; their `URIError` is not modelled.
- Cookie option values: `maxAge` is an integer; fractional and edge-case number texts are not modelled.
- `MemoryStorage`:
  - Construction from initial data is not modelled.
  - `null` values stored in the record are not modelled.
- `Refresh.Settle`: the wrapped error records its cause rather than the message text of the rethrown `Error`.
- `EXPIRE_FUDGE` (`src/index.ts:10`) is exported but not used; it is only the constant `Legacy.ExpireFudge`.
- `process.env.NODE_ENV` is the constant `TokenStore.NodeEnv`.
