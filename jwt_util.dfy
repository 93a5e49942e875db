/** Client-side expiry check on a token, by decoding it without verifying
    its signature. */
module JwtUtil {
  import opened Wrappers
  import opened Jose

  /** Milliseconds per second. */
  const SECOND := 1000

  /** `getTokenExpiryTime`: the token's `exp` claim, unchanged; `jwtDecode`
      throws on a malformed token and nothing here catches it. */
  function GetTokenExpiryTime(decode: string -> Decoded, token: string): (r: Result<Option<int>, Thrown>)
    ensures r.Failure? <==> decode(token).Malformed?
    ensures r.Success? ==> r.value == decode(token).exp
  {
    match decode(token)
    case Malformed => Failure(Thrown)
    case Parsed(exp) => Success(exp)
  }

  /** `isTokenExpired`: `exp < Date.now() / SECOND`, a comparison of the
      seconds claim with the fractional seconds of the clock. A token without
      `exp` compares `undefined < now`, which is false. */
  function IsTokenExpired(decode: string -> Decoded, token: string, nowMs: int): (r: Result<bool, Thrown>)
    ensures r.Failure? <==> decode(token).Malformed?
    ensures r == Success(true) <==>
              decode(token).Parsed? && decode(token).exp.Some?
              && (decode(token).exp.value as real) < (nowMs as real) / (SECOND as real)
  {
    match GetTokenExpiryTime(decode, token)
    case Failure(e) => Failure(e)
    case Success(None) => Success(false)
    case Success(Some(exp)) => Success(exp * SECOND < nowMs)
  }

  /** The comparison is strict: at the instant `exp` itself the token is
      still live. */
  lemma LiveAtExpiryInstant(decode: string -> Decoded, token: string, exp: int)
    requires decode(token) == Parsed(Some(exp))
    ensures IsTokenExpired(decode, token, exp * SECOND) == Success(false)
    ensures IsTokenExpired(decode, token, exp * SECOND + 1) == Success(true)
  {
  }

  /** Once expired, a token stays expired. */
  lemma ExpiryIsMonotone(decode: string -> Decoded, token: string, nowMs: int, laterMs: int)
    requires nowMs <= laterMs
    requires IsTokenExpired(decode, token, nowMs) == Success(true)
    ensures IsTokenExpired(decode, token, laterMs) == Success(true)
  {
  }

  /** The check reads nothing but the decoded `exp` and the clock: two tokens
      that decode alike expire alike, whatever their signatures. */
  lemma ExpiryReadsOnlyExp(decode: string -> Decoded, token: string, other: string, nowMs: int)
    requires decode(token) == decode(other)
    ensures IsTokenExpired(decode, token, nowMs) == IsTokenExpired(decode, other, nowMs)
  {
  }

  /** A token that jose accepts at some instant is not expired by this check at
      that instant: the two expiry rules agree in that direction. (The converse
      fails at the single millisecond `exp * 1000`, where jose already rejects.) */
  lemma VerifiedTokenIsNotExpired(codec: Codec, claims: Claims, key: Key, ttl: int, iat: int, nowMs: int)
    requires Lawful(codec)
    requires codec.verify(codec.sign(claims, key, ttl, iat), key, EpochSeconds(nowMs)).Some?
    ensures IsTokenExpired(codec.decode, codec.sign(claims, key, ttl, iat), nowMs) == Success(false)
  {
    var token := codec.sign(claims, key, ttl, iat);
    assert codec.decode(token) == Parsed(Some(iat + ttl));
    assert EpochSeconds(nowMs) < iat + ttl;
  }
}
