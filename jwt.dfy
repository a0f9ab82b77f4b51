/** The expiry decision of src/lib/token.ts. Decoding the token is the job
    of jwt-decode, here the parameter `decode` (None where it throws), and
    the clock reading `Date.now() / 1000` is the parameter `now`, in seconds. */
module Jwt {
  import opened Types

  /** The one claim of the payload the library reads. */
  datatype Payload = Payload(exp: Option<real>)

  type Decoder = Token -> Option<Payload>

  /** The token decodes and carries an expiry claim JavaScript finds truthy
      (present and not zero). */
  predicate HasExpiry(decode: Decoder, token: Token) {
    decode(token).Some? && decode(token).value.exp.Some? && decode(token).value.exp.value != 0.0
  }

  function Expiry(decode: Decoder, token: Token): real
    requires HasExpiry(decode, token)
  {
    decode(token).value.exp.value
  }

  /** `getTimestamp`: the `exp` claim; the decoder's error is not caught. */
  function GetTimestamp(decode: Decoder, token: Token): (r: Result<Option<real>, Error>)
    ensures r.Err? <==> decode(token).None?
    ensures r.Err? ==> r.error == TokenUndecodable(token)
    ensures r.Ok? ==> r.value == decode(token).value.exp
  {
    match decode(token)
    case None => Err(TokenUndecodable(token))
    case Some(payload) => Ok(payload.exp)
  }

  /** `getExpiresIn`: seconds left until the claim, or -1 without a usable claim. */
  function GetExpiresIn(decode: Decoder, token: Token, now: real): (r: Result<real, Error>)
    ensures r.Err? <==> decode(token).None?
    ensures r.Err? ==> r.error == TokenUndecodable(token)
    ensures r.Ok? && !HasExpiry(decode, token) ==> r.value == -1.0
    ensures HasExpiry(decode, token) ==> r == Ok(Expiry(decode, token) - now)
  {
    match GetTimestamp(decode, token)
    case Err(e) => Err(e)
    case Ok(expiration) =>
      if expiration.None? || expiration.value == 0.0 then Ok(-1.0)
      else Ok(expiration.value - now)
  }

  /** `isExpired(token, leeway)`: an empty token is expired; otherwise the
      token is expired when it is due exactly now or within `leeway`
      seconds, and a token without a usable claim is expired exactly when
      the leeway is at least -1. */
  function IsExpired(decode: Decoder, token: Token, leeway: real, now: real): (r: Result<bool, Error>)
    ensures token == "" ==> r == Ok(true)
    ensures token != "" ==> (r.Err? <==> decode(token).None?)
    ensures r.Err? ==> r.error == TokenUndecodable(token)
    ensures token != "" && HasExpiry(decode, token) ==>
              r == Ok(Expiry(decode, token) == now || Expiry(decode, token) - now <= leeway)
    ensures token != "" && decode(token).Some? && !HasExpiry(decode, token) ==>
              r == Ok(leeway >= -1.0)
  {
    if token == "" then Ok(true)
    else
      match GetExpiresIn(decode, token, now)
      case Err(e) => Err(e)
      case Ok(expiresIn) => Ok(expiresIn == 0.0 || expiresIn <= leeway)
  }

  /** The call of src/index.ts, which passes no leeway: `expiresIn <= undefined`
      is false in JavaScript, so only an empty token or a token due exactly
      now counts as expired. */
  function IsExpiredNoLeeway(decode: Decoder, token: Token, now: real): (r: Result<bool, Error>)
    ensures token == "" ==> r == Ok(true)
    ensures token != "" ==> (r.Err? <==> decode(token).None?)
    ensures r.Err? ==> r.error == TokenUndecodable(token)
    ensures token != "" && decode(token).Some? ==>
              r == Ok(HasExpiry(decode, token) && Expiry(decode, token) == now)
  {
    if token == "" then Ok(true)
    else
      match GetExpiresIn(decode, token, now)
      case Err(e) => Err(e)
      case Ok(expiresIn) => Ok(expiresIn == 0.0)
  }

  /** A token expired for a non-negative leeway stays expired for every
      larger leeway and at every later time. */
  lemma ExpiredIsMonotone(decode: Decoder, token: Token, leeway: real, leeway': real, now: real, now': real)
    requires 0.0 <= leeway <= leeway'
    requires now <= now'
    requires IsExpired(decode, token, leeway, now) == Ok(true)
    ensures IsExpired(decode, token, leeway', now') == Ok(true)
  {
  }

  /** A token with 1200 seconds left is not expired with a leeway of 300. */
  lemma FreshTokenIsNotExpired(decode: Decoder, token: Token, now: real)
    requires token != "" && now >= 0.0
    requires decode(token) == Some(Payload(Some(now + 1200.0)))
    ensures IsExpired(decode, token, 300.0, now) == Ok(false)
  {
  }

  /** A token signed with a lifetime of 0 seconds, read at or after its
      signing time, is expired for any non-negative leeway. */
  lemma ZeroLifetimeTokenIsExpired(decode: Decoder, token: Token, issuedAt: real, now: real, leeway: real)
    requires token != "" && issuedAt <= now && leeway >= 0.0
    requires decode(token) == Some(Payload(Some(issuedAt)))
    ensures IsExpired(decode, token, leeway, now) == Ok(true)
  {
  }

  /** Without a leeway, a token whose claim lies in the past is not expired,
      and neither is a token without a usable claim. */
  lemma NoLeewayMissesPastExpiry(decode: Decoder, token: Token, now: real)
    requires token != "" && decode(token).Some?
    requires !HasExpiry(decode, token) || Expiry(decode, token) < now
    ensures IsExpiredNoLeeway(decode, token, now) == Ok(false)
    ensures IsExpired(decode, token, 0.0, now) == Ok(true)
  {
  }
}
