/** The token accessors that TokenInterceptor (src/token-interceptor.ts) and
    the older TokenStorage (src/index.ts) share word for word: the pair is
    kept as one serialized record under one key of a string key/value
    storage, and every field accessor reads, modifies and writes that record. */
module TokenStore {
  import opened Types
  import opened Json

  /** `process.env.NODE_ENV`, fixed for the life of the program; both
      default storage keys are built from it. */
  const NodeEnv: string := "production"

  /** The storage capability, as the key/value contents it holds. */
  type Storage = map<string, string>

  /** The `tokens` getter: an absent or empty record is no pair; any other
      record must parse, and one that does not is an error, not "no pair". */
  function Read(storage: Storage, key: string, codec: TokenCodec): (r: Result<Option<Tokens>, Error>)
    ensures r == Ok(None) <==> key !in storage || storage[key] == ""
    ensures r.Err? <==> key in storage && storage[key] != "" && codec.parse(storage[key]).None?
    ensures r.Err? ==> r.error == TokensUnparseable(storage[key])
    ensures r.Ok? && r.value.Some? ==> Some(r.value.value) == codec.parse(storage[key])
  {
    if key !in storage || storage[key] == "" then Ok(None)
    else
      match codec.parse(storage[key])
      case None => Err(TokensUnparseable(storage[key]))
      case Some(tokens) => Ok(Some(tokens))
  }

  /** The `tokens` setter: a pair is written whole under `key`, no pair
      removes `key`; no other key changes. */
  function Write(storage: Storage, key: string, codec: TokenCodec, tokens: Option<Tokens>): (r: Storage)
    ensures forall k :: k != key ==> (k in r <==> k in storage)
    ensures forall k :: k != key && k in r ==> r[k] == storage[k]
    ensures tokens.None? ==> key !in r
    ensures tokens.Some? ==> key in r && r[key] == codec.stringify(tokens.value)
  {
    match tokens
    case None => storage - {key}
    case Some(t) => storage[key := codec.stringify(t)]
  }

  /** The `accessToken` getter. */
  function AccessToken(storage: Storage, key: string, codec: TokenCodec): (r: Result<Option<Token>, Error>)
    ensures r.Err? <==> Read(storage, key, codec).Err?
    ensures r == Ok(None) <==> Read(storage, key, codec) == Ok(None)
    ensures Read(storage, key, codec).Ok? && Read(storage, key, codec).value.Some? ==>
              r == Ok(Some(Read(storage, key, codec).value.value.accessToken))
  {
    match Read(storage, key, codec)
    case Err(e) => Err(e)
    case Ok(None) => Ok(None)
    case Ok(Some(t)) => Ok(Some(t.accessToken))
  }

  /** The `refreshToken` getter. */
  function RefreshToken(storage: Storage, key: string, codec: TokenCodec): (r: Result<Option<Token>, Error>)
    ensures r.Err? <==> Read(storage, key, codec).Err?
    ensures r == Ok(None) <==> Read(storage, key, codec) == Ok(None)
    ensures Read(storage, key, codec).Ok? && Read(storage, key, codec).value.Some? ==>
              r == Ok(Some(Read(storage, key, codec).value.value.refreshToken))
  {
    match Read(storage, key, codec)
    case Err(e) => Err(e)
    case Ok(None) => Ok(None)
    case Ok(Some(t)) => Ok(Some(t.refreshToken))
  }

  /** A JavaScript-truthy token: present and not the empty string. */
  predicate Truthy(token: Option<Token>) { token.Some? && token.value != "" }

  /** The `accessToken` setter: a falsy token does nothing; with no stored
      pair it throws; otherwise it rewrites the pair with the new access token. */
  function SetAccessToken(storage: Storage, key: string, codec: TokenCodec, token: Option<Token>): (r: Result<Storage, Error>)
    ensures !Truthy(token) ==> r == Ok(storage)
    ensures Truthy(token) && Read(storage, key, codec) == Ok(None) ==> r == Err(NoStoredTokens)
    ensures Truthy(token) && Read(storage, key, codec).Err? ==> r == Err(Read(storage, key, codec).error)
    ensures Truthy(token) && Read(storage, key, codec).Ok? && Read(storage, key, codec).value.Some? ==>
              var old_ := Read(storage, key, codec).value.value;
              r == Ok(Write(storage, key, codec, Some(Tokens(token.value, old_.refreshToken))))
  {
    if !Truthy(token) then Ok(storage)
    else
      match Read(storage, key, codec)
      case Err(e) => Err(e)
      case Ok(None) => Err(NoStoredTokens)
      case Ok(Some(t)) => Ok(Write(storage, key, codec, Some(t.(accessToken := token.value))))
  }

  /** The `refreshToken` setter, the same with the other field. */
  function SetRefreshToken(storage: Storage, key: string, codec: TokenCodec, token: Option<Token>): (r: Result<Storage, Error>)
    ensures !Truthy(token) ==> r == Ok(storage)
    ensures Truthy(token) && Read(storage, key, codec) == Ok(None) ==> r == Err(NoStoredTokens)
    ensures Truthy(token) && Read(storage, key, codec).Err? ==> r == Err(Read(storage, key, codec).error)
    ensures Truthy(token) && Read(storage, key, codec).Ok? && Read(storage, key, codec).value.Some? ==>
              var old_ := Read(storage, key, codec).value.value;
              r == Ok(Write(storage, key, codec, Some(Tokens(old_.accessToken, token.value))))
  {
    if !Truthy(token) then Ok(storage)
    else
      match Read(storage, key, codec)
      case Err(e) => Err(e)
      case Ok(None) => Err(NoStoredTokens)
      case Ok(Some(t)) => Ok(Write(storage, key, codec, Some(t.(refreshToken := token.value))))
  }

  /** `isLoggedIn`: a non-empty refresh token is stored. */
  function IsLoggedIn(storage: Storage, key: string, codec: TokenCodec): (r: Result<bool, Error>)
    ensures r.Err? <==> Read(storage, key, codec).Err?
    ensures r.Ok? ==> (r.value <==> Read(storage, key, codec).value.Some? &&
                                     Read(storage, key, codec).value.value.refreshToken != "")
  {
    match RefreshToken(storage, key, codec)
    case Err(e) => Err(e)
    case Ok(token) => Ok(Truthy(token))
  }

  /** `clearTokens` / `clear`: the `tokens` setter with no pair. */
  function Clear(storage: Storage, key: string, codec: TokenCodec): (r: Storage)
    ensures r == storage - {key}
  {
    Write(storage, key, codec, None)
  }

  /** Writing a pair and reading it back gives the same pair. */
  lemma ReadAfterWrite(storage: Storage, key: string, codec: TokenCodec, tokens: Tokens)
    requires Lawful(codec)
    ensures Read(Write(storage, key, codec, Some(tokens)), key, codec) == Ok(Some(tokens))
  {
    assert codec.parse(codec.stringify(tokens)) == Some(tokens);
  }

  /** Storing a pair with a non-empty refresh token logs the user in. */
  lemma LoggedInAfterWrite(storage: Storage, key: string, codec: TokenCodec, tokens: Tokens)
    requires Lawful(codec) && tokens.refreshToken != ""
    ensures IsLoggedIn(Write(storage, key, codec, Some(tokens)), key, codec) == Ok(true)
  {
    ReadAfterWrite(storage, key, codec, tokens);
  }

  /** After a clear nothing is stored and nobody is logged in; clearing
      again changes nothing. */
  lemma ClearIsIdempotent(storage: Storage, key: string, codec: TokenCodec)
    ensures Read(Clear(storage, key, codec), key, codec) == Ok(None)
    ensures IsLoggedIn(Clear(storage, key, codec), key, codec) == Ok(false)
    ensures Clear(Clear(storage, key, codec), key, codec) == Clear(storage, key, codec)
  {
  }

  /** A successful field update leaves the other field as it was. */
  lemma SetAccessTokenKeepsRefreshToken(storage: Storage, key: string, codec: TokenCodec, token: Token, tokens: Tokens)
    requires Lawful(codec) && token != ""
    requires Read(storage, key, codec) == Ok(Some(tokens))
    ensures SetAccessToken(storage, key, codec, Some(token)).Ok?
    ensures Read(SetAccessToken(storage, key, codec, Some(token)).value, key, codec) == Ok(Some(Tokens(token, tokens.refreshToken)))
  {
    ReadAfterWrite(storage, key, codec, Tokens(token, tokens.refreshToken));
  }

  lemma SetRefreshTokenKeepsAccessToken(storage: Storage, key: string, codec: TokenCodec, token: Token, tokens: Tokens)
    requires Lawful(codec) && token != ""
    requires Read(storage, key, codec) == Ok(Some(tokens))
    ensures SetRefreshToken(storage, key, codec, Some(token)).Ok?
    ensures Read(SetRefreshToken(storage, key, codec, Some(token)).value, key, codec) == Ok(Some(Tokens(tokens.accessToken, token)))
  {
    ReadAfterWrite(storage, key, codec, Tokens(tokens.accessToken, token));
  }

  /** Setting the access token to the one already stored leaves the storage
      as it is. */
  lemma SetSameAccessTokenIsNoOp(storage: Storage, key: string, codec: TokenCodec, tokens: Tokens)
    requires Lawful(codec)
    requires key in storage && storage[key] == codec.stringify(tokens)
    ensures SetAccessToken(storage, key, codec, Some(tokens.accessToken)) == Ok(storage)
  {
    assert codec.parse(codec.stringify(tokens)) == Some(tokens);
    assert tokens.(accessToken := tokens.accessToken) == tokens;
    assert storage[key := codec.stringify(tokens)] == storage;
  }
}
