/** The middleware of the JWT variant and its three-valued session resolver. */
module JwtMiddleware {
  import opened Wrappers
  import opened Jose
  import opened Http
  import opened Config
  import opened Routes
  import opened RouteGate
  import opened JwtAuthLib

  datatype JwtAuthStatus = Authenticated(payload: Claims) | Refreshed(payload: Claims) | Unauthenticated

  /** The status `getAuthStatus` resolves to and the cookie store it leaves. */
  datatype Resolution = Resolution(status: JwtAuthStatus, jar: map<string, Cookie>)

  /** `getAuthStatus`: an access cookie that verifies authenticates at once,
      with its claims and without touching the store; otherwise, only when the
      request carries a refresh cookie, it rotates through `refreshTokens`, and
      reports `Refreshed` only if the new access token itself verifies. */
  function GetAuthStatusSpec(request: Request, jar: map<string, Cookie>, codec: Codec, env: Env, nowMs: int): (r: Resolution)
    ensures var access := Lookup(request.cookies, ACCESS_COOKIE);
            Truthy(access) && VerifyAccessToken(codec, env, access.value, nowMs).Some? ==>
              r == Resolution(Authenticated(VerifyAccessToken(codec, env, access.value, nowMs).value), jar)
    ensures r.jar != jar || r.status.Refreshed? ==> Truthy(Lookup(request.cookies, REFRESH_COOKIE))
    ensures r.status.Refreshed? ==>
              && ACCESS_COOKIE in r.jar
              && VerifyAccessToken(codec, env, r.jar[ACCESS_COOKIE].value, nowMs) == Some(r.status.payload)
    ensures r.status.Authenticated? ==>
              var access := Lookup(request.cookies, ACCESS_COOKIE);
              Truthy(access) && VerifyAccessToken(codec, env, access.value, nowMs) == Some(r.status.payload)
  {
    var accessToken := Lookup(request.cookies, ACCESS_COOKIE);
    var refreshToken := Lookup(request.cookies, REFRESH_COOKIE);
    var fromAccess := if Truthy(accessToken) then VerifyAccessToken(codec, env, accessToken.value, nowMs) else None;
    if fromAccess.Some? then Resolution(Authenticated(fromAccess.value), jar)
    else if !Truthy(refreshToken) then Resolution(Unauthenticated, jar)
    else
      var rotation := RefreshTokensSpec(jar, codec, env, nowMs);
      if rotation.tokens.None? then Resolution(Unauthenticated, rotation.jar)
      else
        match VerifyAccessToken(codec, env, rotation.tokens.value.accessToken, nowMs)
        case Some(payload) => Resolution(Refreshed(payload), rotation.jar)
        case None => Resolution(Unauthenticated, rotation.jar)
  }

  method GetAuthStatus(request: Request, store: CookieStore, codec: Codec, env: Env, nowMs: int) returns (status: JwtAuthStatus)
    modifies store
    ensures Resolution(status, store.jar) == GetAuthStatusSpec(request, old(store.jar), codec, env, nowMs)
  {
    var accessToken := Lookup(request.cookies, ACCESS_COOKIE);
    var refreshToken := Lookup(request.cookies, REFRESH_COOKIE);

    if Truthy(accessToken) {
      var payload := VerifyAccessToken(codec, env, accessToken.value, nowMs);
      if payload.Some? {
        return Authenticated(payload.value);
      }
    }

    if Truthy(refreshToken) {
      var newTokens := RefreshTokens(store, codec, env, nowMs);
      if newTokens.Some? {
        var payload := VerifyAccessToken(codec, env, newTokens.value.accessToken, nowMs);
        if payload.Some? {
          return Refreshed(payload.value);
        }
      }
    }

    return Unauthenticated;
  }

  /** The decision of `jwtAuthMiddleware`: the routing table `Gate`, with both
      `authenticated` and `refreshed` as signed in. */
  function Decide(isPublicRoute: bool, status: JwtAuthStatus, url: Url): (r: Response)
    ensures r == Gate(isPublicRoute, !status.Unauthenticated?, url)
  {
    if isPublicRoute && !status.Unauthenticated? then Redirect(RedirectTo("/", url))
    else if !isPublicRoute && status.Unauthenticated? then Redirect(RedirectTo("/login", url))
    else Proceed
  }

  /** The response to one request and the cookie store it leaves. */
  datatype Handled = Handled(response: Response, jar: map<string, Cookie>)

  function Handle(publicRoutes: seq<string>, request: Request, jar: map<string, Cookie>, codec: Codec, env: Env, nowMs: int): (h: Handled)
    ensures var resolution := GetAuthStatusSpec(request, jar, codec, env, nowMs);
            h == Handled(Gate(request.url.pathname in publicRoutes, !resolution.status.Unauthenticated?, request.url), resolution.jar)
  {
    var resolution := GetAuthStatusSpec(request, jar, codec, env, nowMs);
    Handled(Decide(CheckRoute(publicRoutes, request).isPublicRoute, resolution.status, request.url), resolution.jar)
  }

  /** `jwtAuthMiddleware` */
  method JwtAuthMiddleware(publicRoutes: seq<string>, request: Request, store: CookieStore, codec: Codec, env: Env, nowMs: int)
    returns (r: Response)
    modifies store
    ensures Handled(r, store.jar) == Handle(publicRoutes, request, old(store.jar), codec, env, nowMs)
  {
    var flags := CheckRoute(publicRoutes, request);
    var authStatus := GetAuthStatus(request, store, codec, env, nowMs);
    r := Decide(flags.isPublicRoute, authStatus, request.url);
  }
}
