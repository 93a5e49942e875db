/** The self-contained JWT variant: tokens are signed and verified locally,
    the access and refresh tokens under separate keys. */
module JwtAuthLib {
  import opened Wrappers
  import opened Jose
  import opened Http
  import opened Config
  import opened CookieConstant

  /** Token lifetimes in seconds (`'10s'` and `'30s'`). */
  const ACCESS_TOKEN_EXPIRY := 10
  const REFRESH_TOKEN_EXPIRY := 30

  /** Cookie lifetimes in seconds: 15 minutes and 7 days. */
  const ACCESS_COOKIE_MAX_AGE := 15 * 60
  const REFRESH_COOKIE_MAX_AGE := 7 * 24 * 60 * 60

  const ACCESS_COOKIE := "access_token"
  const REFRESH_COOKIE := "refresh_token"

  /** `{ ...COOKIE_OPTIONS, maxAge }` */
  function CookieOptionsWith(nodeEnv: string, maxAge: int): CookieOptions {
    CookieOptions(
      httpOnly := Some(true), secure := Some(Secure(nodeEnv)), sameSite := Some(Strict),
      path := Some("/"), maxAge := Some(maxAge), expires := None)
  }

  /** `generateTokens`: the same claims signed twice at the same second, the
      access token under the access key for 10 seconds and the refresh token
      under the refresh key for 30. */
  function GenerateTokens(codec: Codec, env: Env, payload: Claims, nowMs: int): (tokens: TokenPair)
    ensures Lawful(codec) ==>
              && tokens.accessToken != "" && tokens.refreshToken != ""
              && codec.decode(tokens.accessToken) == Parsed(Some(EpochSeconds(nowMs) + ACCESS_TOKEN_EXPIRY))
              && codec.decode(tokens.refreshToken) == Parsed(Some(EpochSeconds(nowMs) + REFRESH_TOKEN_EXPIRY))
  {
    var iat := EpochSeconds(nowMs);
    TokenPair(
      codec.sign(payload, env.jwtAccessSecret, ACCESS_TOKEN_EXPIRY, iat),
      codec.sign(payload, env.jwtRefreshSecret, REFRESH_TOKEN_EXPIRY, iat))
  }

  /** `verifyAccessToken`: checked against the access key only; `None` instead
      of any exception. */
  function VerifyAccessToken(codec: Codec, env: Env, token: string, nowMs: int): (r: Option<Claims>)
    ensures Lawful(codec) ==>
              forall claims, key, ttl, iat | token == codec.sign(claims, key, ttl, iat) ::
                r == if key == env.jwtAccessSecret && EpochSeconds(nowMs) < iat + ttl then Some(claims) else None
  {
    codec.verify(token, env.jwtAccessSecret, EpochSeconds(nowMs))
  }

  /** `verifyRefreshToken`: checked against the refresh key only; `None`
      instead of any exception. */
  function VerifyRefreshToken(codec: Codec, env: Env, token: string, nowMs: int): (r: Option<Claims>)
    ensures Lawful(codec) ==>
              forall claims, key, ttl, iat | token == codec.sign(claims, key, ttl, iat) ::
                r == if key == env.jwtRefreshSecret && EpochSeconds(nowMs) < iat + ttl then Some(claims) else None
  {
    codec.verify(token, env.jwtRefreshSecret, EpochSeconds(nowMs))
  }

  /** A freshly generated access token verifies, to the claims it carries,
      for 10 seconds and the refresh token for 30; and when the two secrets
      differ, neither token is accepted in the other's place. */
  lemma GeneratedTokensVerify(codec: Codec, env: Env, payload: Claims, issuedMs: int, nowMs: int)
    requires Lawful(codec)
    ensures var tokens, elapsed := GenerateTokens(codec, env, payload, issuedMs), EpochSeconds(nowMs) - EpochSeconds(issuedMs);
            && VerifyAccessToken(codec, env, tokens.accessToken, nowMs)
               == (if elapsed < ACCESS_TOKEN_EXPIRY then Some(payload) else None)
            && VerifyRefreshToken(codec, env, tokens.refreshToken, nowMs)
               == (if elapsed < REFRESH_TOKEN_EXPIRY then Some(payload) else None)
    ensures env.jwtAccessSecret != env.jwtRefreshSecret ==>
              var tokens := GenerateTokens(codec, env, payload, issuedMs);
              && VerifyAccessToken(codec, env, tokens.refreshToken, nowMs) == None
              && VerifyRefreshToken(codec, env, tokens.accessToken, nowMs) == None
  {
  }

  /** The two writes of `setAuthCookies`: access then refresh, the refresh
      cookie living longer; both http-only, same-site strict, scoped to `/`;
      every other cookie untouched. */
  function WithAuthCookies(jar: map<string, Cookie>, tokens: TokenPair, nodeEnv: string): (r: map<string, Cookie>)
    ensures r.Keys == jar.Keys + {ACCESS_COOKIE, REFRESH_COOKIE}
    ensures r[ACCESS_COOKIE].value == tokens.accessToken && r[REFRESH_COOKIE].value == tokens.refreshToken
    ensures r[ACCESS_COOKIE].options.maxAge == Some(900) && r[REFRESH_COOKIE].options.maxAge == Some(604800)
    ensures forall name | name in {ACCESS_COOKIE, REFRESH_COOKIE} ::
              && r[name].options.httpOnly == Some(true) && r[name].options.sameSite == Some(Strict)
              && r[name].options.path == Some("/") && r[name].options.secure == Some(nodeEnv == "production")
    ensures forall name | name in jar && name != ACCESS_COOKIE && name != REFRESH_COOKIE :: r[name] == jar[name]
  {
    jar[ACCESS_COOKIE := Cookie(tokens.accessToken, CookieOptionsWith(nodeEnv, ACCESS_COOKIE_MAX_AGE))]
       [REFRESH_COOKIE := Cookie(tokens.refreshToken, CookieOptionsWith(nodeEnv, REFRESH_COOKIE_MAX_AGE))]
  }

  /** The two deletions of `clearAuthCookies`. */
  function WithoutAuthCookies(jar: map<string, Cookie>): (r: map<string, Cookie>)
    ensures r.Keys == jar.Keys - {ACCESS_COOKIE, REFRESH_COOKIE}
    ensures forall name | name in r :: r[name] == jar[name]
  {
    jar - {ACCESS_COOKIE, REFRESH_COOKIE}
  }

  /** Clearing twice leaves the same store as clearing once. */
  lemma ClearAuthCookiesIdempotent(jar: map<string, Cookie>)
    ensures WithoutAuthCookies(WithoutAuthCookies(jar)) == WithoutAuthCookies(jar)
  {
  }

  method SetAuthCookies(store: CookieStore, accessToken: string, refreshToken: string, nodeEnv: string)
    modifies store
    ensures store.jar == WithAuthCookies(old(store.jar), TokenPair(accessToken, refreshToken), nodeEnv)
  {
    store.Set(ACCESS_COOKIE, accessToken, CookieOptionsWith(nodeEnv, ACCESS_COOKIE_MAX_AGE));
    store.Set(REFRESH_COOKIE, refreshToken, CookieOptionsWith(nodeEnv, REFRESH_COOKIE_MAX_AGE));
  }

  method ClearAuthCookies(store: CookieStore)
    modifies store
    ensures store.jar == WithoutAuthCookies(old(store.jar))
  {
    store.Delete(ACCESS_COOKIE);
    store.Delete(REFRESH_COOKIE);
  }

  /** The placeholder user `login` signs in: id `'1'`, the submitted email,
      name `'Test User'`. */
  function UserClaims(email: string): Claims {
    map["userId" := Str("1"), "email" := Str(email), "name" := Str("Test User")]
  }

  /** `login`: without a non-empty email and password it answers 400 and
      touches no cookie; otherwise it issues a pair for the placeholder user
      and stores it. */
  method Login(formData: map<string, string>, codec: Codec, env: Env, nowMs: int, store: CookieStore)
    returns (r: Response)
    modifies store
    ensures !HasEmailAndPassword(formData) ==>
              r == Json(400, ErrorBody("Email and password are required")) && store.jar == old(store.jar)
    ensures HasEmailAndPassword(formData) ==>
              && r == Json(200, SuccessBody)
              && store.jar == WithAuthCookies(old(store.jar), GenerateTokens(codec, env, UserClaims(formData["email"]), nowMs), env.nodeEnv)
  {
    var email := Lookup(formData, "email");
    var password := Lookup(formData, "password");
    if !Truthy(email) || !Truthy(password) {
      return Json(400, ErrorBody("Email and password are required"));
    }
    var tokens := GenerateTokens(codec, env, UserClaims(email.value), nowMs);
    SetAuthCookies(store, tokens.accessToken, tokens.refreshToken, env.nodeEnv);
    return Json(200, SuccessBody);
  }

  /** `logout` */
  method Logout(store: CookieStore) returns (r: Response)
    modifies store
    ensures r == Json(200, SuccessBody) && store.jar == WithoutAuthCookies(old(store.jar))
  {
    ClearAuthCookies(store);
    return Json(200, SuccessBody);
  }

  /** The outcome of `refreshTokens` and the cookie store it leaves. */
  datatype Rotation = Rotation(tokens: Option<TokenPair>, jar: map<string, Cookie>)

  /** `refreshTokens`: with no (or an empty) refresh cookie, or one that does
      not verify under the refresh key, it returns nothing and writes nothing;
      otherwise it re-issues a pair for the refresh token's claims and stores
      it. */
  function RefreshTokensSpec(jar: map<string, Cookie>, codec: Codec, env: Env, nowMs: int): (r: Rotation)
    ensures r.tokens.None? ==> r.jar == jar
    ensures r.tokens.Some? <==>
              REFRESH_COOKIE in jar && jar[REFRESH_COOKIE].value != ""
              && VerifyRefreshToken(codec, env, jar[REFRESH_COOKIE].value, nowMs).Some?
    ensures r.tokens.Some? ==>
              && r.tokens.value == GenerateTokens(codec, env, VerifyRefreshToken(codec, env, jar[REFRESH_COOKIE].value, nowMs).value, nowMs)
              && r.jar == WithAuthCookies(jar, r.tokens.value, env.nodeEnv)
  {
    var refreshToken := if REFRESH_COOKIE in jar then Some(jar[REFRESH_COOKIE].value) else None;
    if !Truthy(refreshToken) then Rotation(None, jar)
    else
      match VerifyRefreshToken(codec, env, refreshToken.value, nowMs)
      case None => Rotation(None, jar)
      case Some(payload) =>
        var tokens := GenerateTokens(codec, env, payload, nowMs);
        Rotation(Some(tokens), WithAuthCookies(jar, tokens, env.nodeEnv))
  }

  method RefreshTokens(store: CookieStore, codec: Codec, env: Env, nowMs: int) returns (tokens: Option<TokenPair>)
    modifies store
    ensures Rotation(tokens, store.jar) == RefreshTokensSpec(old(store.jar), codec, env, nowMs)
  {
    var refreshToken := store.Get(REFRESH_COOKIE);
    if !Truthy(refreshToken) {
      return None;
    }
    var payload := VerifyRefreshToken(codec, env, refreshToken.value, nowMs);
    if payload.None? {
      return None;
    }
    var pair := GenerateTokens(codec, env, payload.value, nowMs);
    SetAuthCookies(store, pair.accessToken, pair.refreshToken, env.nodeEnv);
    return Some(pair);
  }

  /** A refresh cookie issued with the claims `payload` at second `issuedAt`
      is rotated, within its 30 seconds, into a pair for the same claims whose
      new access token verifies. */
  lemma RotationKeepsClaims(jar: map<string, Cookie>, codec: Codec, env: Env, payload: Claims, issuedAt: int, nowMs: int)
    requires Lawful(codec)
    requires REFRESH_COOKIE in jar && jar[REFRESH_COOKIE].value == codec.sign(payload, env.jwtRefreshSecret, REFRESH_TOKEN_EXPIRY, issuedAt)
    requires EpochSeconds(nowMs) < issuedAt + REFRESH_TOKEN_EXPIRY
    ensures RefreshTokensSpec(jar, codec, env, nowMs).tokens == Some(GenerateTokens(codec, env, payload, nowMs))
    ensures VerifyAccessToken(codec, env, GenerateTokens(codec, env, payload, nowMs).accessToken, nowMs) == Some(payload)
  {
  }

  /** `protectApiRoute`: 401 `Unauthorized` without an access cookie, 401
      `Invalid token` when it does not verify under the access key, and
      through otherwise. */
  function ProtectApiRoute(request: Request, codec: Codec, env: Env, nowMs: int): (r: Response)
    ensures var token := Lookup(request.cookies, ACCESS_COOKIE);
            && (r == Json(401, ErrorBody("Unauthorized")) <==> !Truthy(token))
            && (r == Json(401, ErrorBody("Invalid token")) <==> Truthy(token) && VerifyAccessToken(codec, env, token.value, nowMs).None?)
            && (r == Proceed <==> Truthy(token) && VerifyAccessToken(codec, env, token.value, nowMs).Some?)
  {
    var accessToken := Lookup(request.cookies, ACCESS_COOKIE);
    if !Truthy(accessToken) then Json(401, ErrorBody("Unauthorized"))
    else if VerifyAccessToken(codec, env, accessToken.value, nowMs).None? then Json(401, ErrorBody("Invalid token"))
    else Proceed
  }

  /** An API route lets a freshly issued access token through for its 10
      seconds, and never accepts a refresh token presented in its place. */
  lemma ApiRouteAcceptsOnlyAccessTokens(request: Request, codec: Codec, env: Env, payload: Claims, issuedMs: int, nowMs: int)
    requires Lawful(codec)
    requires ACCESS_COOKIE in request.cookies
    ensures var tokens := GenerateTokens(codec, env, payload, issuedMs);
            request.cookies[ACCESS_COOKIE] == tokens.accessToken
            && EpochSeconds(nowMs) < EpochSeconds(issuedMs) + ACCESS_TOKEN_EXPIRY
            ==> ProtectApiRoute(request, codec, env, nowMs) == Proceed
    ensures var tokens := GenerateTokens(codec, env, payload, issuedMs);
            request.cookies[ACCESS_COOKIE] == tokens.refreshToken && env.jwtAccessSecret != env.jwtRefreshSecret
            ==> ProtectApiRoute(request, codec, env, nowMs) == Json(401, ErrorBody("Invalid token"))
  {
  }

  /** `getUserFromCookies`: the claims of the access cookie when it verifies,
      and nothing when it is absent, empty or invalid. */
  method GetUserFromCookies(store: CookieStore, codec: Codec, env: Env, nowMs: int) returns (r: Option<Claims>)
    ensures ACCESS_COOKIE !in store.jar || store.jar[ACCESS_COOKIE].value == "" ==> r == None
    ensures ACCESS_COOKIE in store.jar && store.jar[ACCESS_COOKIE].value != "" ==>
              r == VerifyAccessToken(codec, env, store.jar[ACCESS_COOKIE].value, nowMs)
  {
    var accessToken := store.Get(ACCESS_COOKIE);
    if !Truthy(accessToken) {
      return None;
    }
    r := VerifyAccessToken(codec, env, accessToken.value, nowMs);
  }
}
