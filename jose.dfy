/** The token codec: `SignJWT`/`jwtVerify` from jose and `jwtDecode` from
    jwt-decode. Their code is not part of this model, so a codec is a record of
    three functions supplied by the caller, and what the auth layer relies on
    about them is the predicate `Lawful`. */
module Jose {
  import opened Wrappers

  /** A signing key: `new TextEncoder().encode(secret)`, modelled by the secret. */
  type Key = string

  /** A claim value: a string, a `Date` (epoch milliseconds) or a flat object. */
  datatype Value = Str(s: string) | Time(ms: int) | Record(fields: map<string, string>)

  /** The application's claims in a token; `iat` and `exp` are managed by the codec. */
  type Claims = map<string, Value>

  /** What `jwtDecode` makes of a token: it throws on a malformed one, and
      otherwise yields the `exp` claim (epoch seconds) if there is one. */
  datatype Decoded = Malformed | Parsed(exp: Option<int>)

  /** An access token and a refresh token, as issued together. */
  datatype TokenPair = TokenPair(accessToken: string, refreshToken: string)

  /** `sign(claims, key, ttl, iat)` is `new SignJWT(claims).setIssuedAt()
      .setExpirationTime(ttl).sign(key)` at epoch second `iat`;
      `verify(token, key, now)` is `jwtVerify(token, key)` at epoch second
      `now`, `None` where it throws; `decode(token)` is `jwtDecode(token)`. */
  datatype Codec = Codec(
    sign: (Claims, Key, int, int) -> string,
    verify: (string, Key, int) -> Option<Claims>,
    decode: string -> Decoded)

  /** jose's clock: whole seconds since the epoch, rounded down. */
  function EpochSeconds(nowMs: int): (s: int)
    ensures s * 1000 <= nowMs < s * 1000 + 1000
  {
    nowMs / 1000
  }

  /** The laws of an HS256 codec the auth layer depends on: a signed token is
      never empty; it verifies under its own key, to the claims it was signed
      with, strictly before `iat + ttl`, and under no other key or later; and it
      decodes to `exp == iat + ttl`. */
  ghost predicate Lawful(codec: Codec) {
    && (forall claims, key, ttl, iat :: codec.sign(claims, key, ttl, iat) != "")
    && (forall claims, key, ttl, iat, key', now ::
          codec.verify(codec.sign(claims, key, ttl, iat), key', now)
          == if key' == key && now < iat + ttl then Some(claims) else None)
    && (forall claims, key, ttl, iat ::
          codec.decode(codec.sign(claims, key, ttl, iat)) == Parsed(Some(iat + ttl)))
  }
}
