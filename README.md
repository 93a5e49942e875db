# nextjs-middleware-auth: the authentication decision layer in Dafny

This project models the part of `nextjs-middleware-auth` that decides who is
signed in and where a request goes. The repository ships three
interchangeable authentication schemes, and each is modelled:

- **Remote-backed.** An identity service over HTTP issues an access/refresh
  token pair. The middleware reads the expiry of the tokens in the
  `accessToken`/`refreshToken` cookies without checking signatures. When the
  access cookie is absent or expired and the refresh cookie is present and
  unexpired, it asks the service to rotate the pair. Server actions log in
  and log out through the same service.
- **JWT.** The app signs and verifies an access token (10 s) and a refresh
  token (30 s) itself, under two separate secrets. They live in the
  `access_token`/`refresh_token` cookies. When the access cookie is absent
  or does not verify, the middleware rotates the pair, but only if the request
  carries a non-empty `refresh_token` cookie that verifies under the refresh
  key.
- **Session.** One signed token, valid for an hour, lives in a `session`
  cookie. `updateSession` re-signs it with a fresh hour on every checked
  request.

All three classify the request path as public or protected with the same
exact-match rule. All three then apply one routing table, `RouteGate.Gate`:
a signed-in caller on a public page goes to `/`, a signed-out caller on a
protected page goes to `/login`, and every other request goes through. Each
middleware's decision is proved equal to that table.

The modelling choices:

- **Cookie store.** The per-request cookie store is the class
  `Http.CookieStore`, whose `jar` maps a name to a value and its attributes.
- **Identity service.** The remote service is the class
  `Repository.AuthRepository`. It logs the calls made on it and returns the
  replies it was built with.
- **Token libraries.** jose (`SignJWT`, `jwtVerify`) and jwt-decode are a
  `Jose.Codec` of three functions. The behaviour the auth layer relies on is
  stated as `Jose.Lawful`, and only the lemmas that need it assume it:
  - a signed token verifies under its own key, to its claims, strictly before
    `iat + ttl`;
  - it verifies under no other key;
  - it decodes to `exp = iat + ttl`.
- **Clock.** The clock is an explicit `nowMs` parameter in epoch
  milliseconds. jose reads it in whole seconds (`Jose.EpochSeconds`).
- **Exceptions.** An exception that escapes is a `Failure(Thrown)` result.
- **Browsing traces.** The modules `JwtTrace` and `SessionTrace` follow a
  browser through a run of visits. This is where the sliding-session
  behaviour of the two local schemes is proved. Cookies reach the browser by
  two different rules:
  - `JwtTrace.Browse`: cookies written through the `cookies()` store during
    the middleware reach the browser with whatever response the middleware
    returns, a redirect or a bare `next()` included. The browser then sends
    back everything that store held.
  - `SessionTrace.BrowseSession`: a cookie set with `res.cookies.set` on a
    response object reaches the browser only if that object is the response
    returned (`Browsing.Receive`). This is what the session Finding turns on.

Two behaviours of the remote-backed resolver are worth noting:

- **Malformed tokens.** A malformed token cookie is not read as signed out.
  `jwtDecode` (`src/middlewares/auth-status.middleware.ts:18,26`) runs outside
  any `try`, so it throws out of `getAuthStatus` and out of `authMiddleware`.
  `AuthStatusMiddleware.BranchOf` returns `DecodeThrew` on that path.
- **Failed rotation.** A failed rotation leaves the existing cookies in place
  (`src/middlewares/auth-status.middleware.ts:40-43`): it only logs the error
  and reports unauthenticated. `AuthStatusMiddleware.GetAuthStatus` states
  that the store is unchanged.

## Model

| member | source | states |
|---|---|---|
| Routes.Includes | src/middlewares/check-route.middleware.ts:6 | `publicRoutes.includes(path)` holds exactly when `path` is an element of the list |
| Routes.CheckRoute | src/middlewares/check-route.middleware.ts:4-10 | a request is public iff its pathname is listed; protected is exactly not public, so exactly one flag holds |
| Routes.ClassifiesByPathnameOnly | src/middlewares/check-route.middleware.ts:5 | two requests with the same pathname are classified alike, whatever their origin, query or cookies |
| Routes.NoPrefixMatching | src/middlewares/check-route.middleware.ts:6 | a path extending a public path is protected unless it is listed itself |
| RouteGate.Gate | src/middlewares/auth.middleware.ts:12-22 | the shared routing table, case by case: public and signed in goes to `/` on the request's origin; protected and signed out goes to `/login`; the other two cases proceed (also `jwt-auth.middleware.ts:17-27`, `session-auth.middleware.ts:18-34`) |
| RouteGate.GateRedirectsOnlyAcrossClasses | src/middlewares/auth.middleware.ts:12-22 | the table redirects iff the caller's state does not fit the route class; otherwise it proceeds; a public page never leads to `/login` and a protected page never to `/`; redirects keep the request's origin |
| CookieConstant.CookiePolicy | src/constants/cookie.constant.ts:3-22 | the cookie names differ; refresh maxAge (30) exceeds access maxAge (10); both are httpOnly, sameSite strict and path `/`; both are secure exactly in production |
| CookieConstant.AccessTokenCookieOptions | src/constants/cookie.constant.ts:8-14 | maxAge 10, httpOnly, sameSite strict, path `/`, secure exactly in production |
| CookieConstant.RefreshTokenCookieOptions | src/constants/cookie.constant.ts:16-22 | maxAge 30, httpOnly, sameSite strict, path `/`, secure exactly in production |
| CookieConstant.WithTokenCookies | src/middlewares/auth-status.middleware.ts:36-37 | writing a pair sets the access cookie and the refresh cookie, each with its own policy, and leaves every other cookie as it was |
| JwtUtil.GetTokenExpiryTime | src/utils/jwt.util.ts:4-7 | returns the decoded `exp` unchanged, and throws exactly when the token cannot be decoded |
| JwtUtil.IsTokenExpired | src/utils/jwt.util.ts:9-14 | expired iff `exp` exists and `exp < nowMs / 1000` over the reals; it throws exactly on a malformed token |
| JwtUtil.LiveAtExpiryInstant | src/utils/jwt.util.ts:13 | the comparison is strict: a token is live at the instant `exp` and expired one millisecond later |
| JwtUtil.ExpiryIsMonotone | src/utils/jwt.util.ts:11-13 | a token expired at some time is expired at every later time |
| JwtUtil.ExpiryReadsOnlyExp | src/utils/jwt.util.ts:5 | two tokens that decode alike expire alike: no signature is checked |
| JwtUtil.VerifiedTokenIsNotExpired | src/utils/jwt.util.ts:9-14 | a token that jose accepts at an instant is not expired by this check at that instant |
| Http.CookieStore.Set | src/middlewares/auth-status.middleware.ts:36-37 | `cookieStore.set`: the named cookie gets the new value and options, and every other cookie is unchanged |
| Http.CookieStore.Delete | src/actions/auth.action.ts:59-60 | `cookieStore.delete`: the named cookie is removed, every other cookie is unchanged, and deleting an absent cookie changes nothing |
| Repository.AuthRepository.Login | src/libs/auth/repository/auth.repository.impl.ts:9-13 | logs the login call and returns the service's reply for those credentials |
| Repository.AuthRepository.RefreshToken | src/libs/auth/repository/auth.repository.impl.ts:19-23 | logs the refresh call and returns the service's reply |
| Repository.AuthRepository.Logout | src/libs/auth/repository/auth.repository.impl.ts:15-17 | logs the logout call and returns the service's reply |
| AuthStatusMiddleware.BranchOf | src/middlewares/auth-status.middleware.ts:14-29 | the branch taken: valid access iff the access cookie is present and unexpired; ask the service iff access is absent or expired and refresh is present and unexpired; no refresh iff access is absent or expired and refresh is absent; a throw iff a consulted token is malformed |
| AuthStatusMiddleware.StatusOf | src/middlewares/auth-status.middleware.ts:19-42 | authenticated iff the access cookie was valid or the service rotated the pair; unauthenticated iff there was no refresh cookie, it had expired, or the service failed; a throw iff a decode threw |
| AuthStatusMiddleware.AuthenticatedOnlyOnEvidence | src/middlewares/auth-status.middleware.ts:18-43 | the result is authenticated only for a decodable, unexpired access cookie or after a successful rotation by the service |
| AuthStatusMiddleware.GetAuthStatus | src/middlewares/auth-status.middleware.ts:14-44 | the status follows the branch; the service is called exactly on the ask-the-service branch; only a successful reply writes both cookies; a failure leaves the store unchanged |
| RemoteMiddleware.Decide | src/middlewares/auth.middleware.ts:12-22 | the decision equals the routing table with `authenticated` as signed in |
| RemoteMiddleware.AuthMiddleware | src/middlewares/auth.middleware.ts:6-23 | the response is the table's decision on the resolved status, or the resolver's exception; its cookie writes and service calls are those of the resolver |
| AuthAction.GetAuthToken | src/actions/auth.action.ts:13-19 | each value is the stored cookie's value, or `''` when the cookie is absent |
| AuthAction.SetAuthToken | src/actions/auth.action.ts:21-25 | stores the access value under the access name and policy, and the refresh value under the refresh name and policy |
| AuthAction.LoginFailure | src/actions/auth.action.ts:45-51 | every error message starts with `Login failed: ` |
| AuthAction.LoginAction | src/actions/auth.action.ts:27-54 | with missing fields: the fixed error, no service call, no cookie; otherwise exactly one login call; on success both cookies are written and it redirects to `/`; on failure it writes nothing and returns an error state with the reason |
| AuthAction.LogoutAction | src/actions/auth.action.ts:56-69 | both cookies are deleted whatever the service answers; one logout call is made; it redirects to `/login`, or to `/` when the remote logout fails |
| JwtAuthLib.GenerateTokens | src/libs/jwt-auth.lib.ts:27-41 | under the codec's laws both tokens are non-empty and carry the same issue second, the access token expiring 10 s and the refresh token 30 s after it |
| JwtAuthLib.VerifyAccessToken | src/libs/jwt-auth.lib.ts:44-53 | under the codec's laws a signed token yields its claims iff it was signed with the access key and has not expired, and null otherwise instead of throwing |
| JwtAuthLib.VerifyRefreshToken | src/libs/jwt-auth.lib.ts:55-64 | under the codec's laws a signed token yields its claims iff it was signed with the refresh key and has not expired, and null otherwise instead of throwing |
| JwtAuthLib.GeneratedTokensVerify | src/libs/jwt-auth.lib.ts:13-64 | a fresh access token verifies, to its claims, for 10 s and the refresh token for 30 s; with distinct secrets neither token is accepted as the other |
| JwtAuthLib.WithAuthCookies | src/libs/jwt-auth.lib.ts:67-79 | the cookie writes: access with maxAge 900 and refresh with maxAge 604800; both httpOnly, strict, path `/`, secure in production; other cookies untouched |
| JwtAuthLib.WithoutAuthCookies | src/libs/jwt-auth.lib.ts:81-85 | removes the two token cookies and keeps every other cookie |
| JwtAuthLib.ClearAuthCookiesIdempotent | src/libs/jwt-auth.lib.ts:81-85 | clearing twice leaves the same store as clearing once |
| JwtAuthLib.SetAuthCookies | src/libs/jwt-auth.lib.ts:67-79 | the store after the call is the old store with both token cookies written |
| JwtAuthLib.ClearAuthCookies | src/libs/jwt-auth.lib.ts:81-85 | the store after the call is the old store with both token cookies removed |
| JwtAuthLib.Login | src/libs/jwt-auth.lib.ts:88-107 | missing email or password: 400 and the store unchanged; otherwise a pair is issued for the placeholder user and stored, and it answers success |
| JwtAuthLib.Logout | src/libs/jwt-auth.lib.ts:109-112 | clears both token cookies and answers success |
| JwtAuthLib.RefreshTokensSpec | src/libs/jwt-auth.lib.ts:115-132 | a pair is returned iff the refresh cookie is present, non-empty and verifies; the pair is issued for its claims and both cookies are written; with no pair nothing is written |
| JwtAuthLib.RefreshTokens | src/libs/jwt-auth.lib.ts:115-132 | the result and the new store are those of `RefreshTokensSpec` on the old store |
| JwtAuthLib.RotationKeepsClaims | src/libs/jwt-auth.lib.ts:115-132 | within 30 s a refresh cookie rotates into a pair for the same claims, and its new access token verifies |
| JwtAuthLib.ProtectApiRoute | src/libs/jwt-auth.lib.ts:135-148 | 401 `Unauthorized` iff there is no access cookie; 401 `Invalid token` iff it does not verify; proceeds iff it verifies |
| JwtAuthLib.ApiRouteAcceptsOnlyAccessTokens | src/libs/jwt-auth.lib.ts:135-148 | a fresh access token passes for 10 s; with distinct secrets, a refresh token in its place is rejected as invalid |
| JwtAuthLib.GetUserFromCookies | src/libs/jwt-auth.lib.ts:151-161 | nothing without a non-empty access cookie, otherwise the claims it verifies to |
| JwtMiddleware.GetAuthStatusSpec | src/middlewares/jwt-auth.middleware.ts:30-57 | a verifying access cookie authenticates with its claims and leaves the store alone; the store changes, or `refreshed` is reported, only when the request carries a refresh cookie; `refreshed` only when the new access token itself verifies, to the reported claims |
| JwtMiddleware.GetAuthStatus | src/middlewares/jwt-auth.middleware.ts:30-57 | the status and the new store are those of `GetAuthStatusSpec` on the old store |
| JwtMiddleware.Decide | src/middlewares/jwt-auth.middleware.ts:16-27 | the decision equals the routing table, with `authenticated` and `refreshed` both as signed in |
| JwtMiddleware.Handle | src/middlewares/jwt-auth.middleware.ts:10-28 | the response is the routing table applied to the route class and the resolved status; the store is the one the resolver leaves |
| JwtMiddleware.JwtAuthMiddleware | src/middlewares/jwt-auth.middleware.ts:10-28 | the response and the new store are those of `Handle` on the old store |
| JwtTrace.RotationHandsBackPair | src/libs/jwt-auth.lib.ts:128-129 | after a rotation the browser holds a pair issued at that visit's second |
| JwtTrace.SignedInWhileActive | src/middlewares/jwt-auth.middleware.ts:30-57 | a browser whose visits each come less than 20 s after the previous one is signed in on every visit |
| JwtTrace.SignedInAfterLogin | src/libs/jwt-auth.lib.ts:88-107 | right after login, a browser visiting at that pace is signed in on every visit |
| JwtTrace.RefreshWindowRunsFromRotation | src/middlewares/jwt-auth.middleware.ts:35-53 | visits at 9 s and 38 s after login get through and then to `/login`: the 30 s window counts from the last rotation, not from the last visit |
| SessionAuthLib.Encrypt | src/libs/session-auth.lib.ts:7-13 | under the codec's laws the session token is non-empty and expires one hour after the second it is made |
| SessionAuthLib.Decrypt | src/libs/session-auth.lib.ts:15-20 | under the codec's laws a signed token decrypts to its claims iff it was signed with `SECRET_KEY` and has not expired, and throws otherwise |
| SessionAuthLib.DecryptInvertsEncrypt | src/libs/session-auth.lib.ts:5-20 | a session decrypts to the payload it was made from for one hour, and throws from then on |
| SessionAuthLib.Login | src/libs/session-auth.lib.ts:22-50 | missing email or password: 400 and no cookie; otherwise an httpOnly `session` cookie whose expiry equals the payload's `expires`, one hour on |
| SessionAuthLib.Logout | src/libs/session-auth.lib.ts:52-55 | deletes the `session` cookie and no other |
| SessionAuthLib.GetSession | src/libs/session-auth.lib.ts:57-62 | nothing without a non-empty `session` cookie; otherwise the decrypted payload, and a decrypt failure propagates |
| SessionAuthLib.Renewed | src/libs/session-auth.lib.ts:70 | every payload field is kept except `expires`, which becomes one hour on |
| SessionAuthLib.UpdateSession | src/libs/session-auth.lib.ts:64-80 | nothing iff there is no non-empty `session` cookie; it throws iff decrypt fails; otherwise a `next()` response setting only `session`, httpOnly and expiring one hour on |
| SessionAuthLib.RenewalKeepsSession | src/libs/session-auth.lib.ts:64-80 | for the next hour the renewed cookie decrypts to the old payload with only `expires` moved on |
| SessionMiddleware.SessionAuthMiddleware | src/middlewares/session-auth.middleware.ts:9-36 | as written: the routing table with "a session was found" as signed in, where an exception reads as signed out; a response that goes through is a bare `next()` |
| SessionMiddleware.SessionAuthMiddlewareForwarding | src/middlewares/session-auth.middleware.ts:9-36 | corrected: the same redirects; a request that goes through with a session gets `updateSession`'s own response |
| SessionTrace.AsWrittenSessionNeverSlides | src/middlewares/session-auth.middleware.ts:28 | as written, protected visits get through for one hour after the session was made and go to `/login` from then on, however active the browser is |
| SessionTrace.ForwardedSessionSlides | src/libs/session-auth.lib.ts:64-80 | with the renewal forwarded, a browser that comes back within the hour each time is never redirected, and each visit renews its session |
| SessionTrace.RenewalDroppedWitness | src/middlewares/session-auth.middleware.ts:15-28 | for a session made at 0 and visits at 30 and 60 minutes, the as-written middleware sends the second visit to `/login`, while the corrected one lets it through |

## Left out

- The codec's laws (`Jose.Lawful`) are assumed about jose and jwt-decode, not derived. Their code (HS256, base64url, JSON) is not part of this model. `Lawful` is a hypothesis of the lemmas that use it, so no operation depends on it.
- Token claims are a map of strings, instants and flat records. `Date` serialisation inside a payload, such as `expires` in the session scheme, is not modelled: a `Time` value round-trips unchanged.
- `exp` is a whole number of seconds. A fractional `exp` claim, which jwt-decode would pass through, is not modelled.
- The identity service's replies are fixed per repository object. The HTTP client in `src/clients/http/base-http.client.ts` and the network behind it are not part of this model.
- The browser is assumed to send back every cookie it was last given. Cookie `maxAge`/`expires` expiry in the browser is not modelled; the traces rely on token expiry alone.
- `console.error` logging is not modelled, and neither is async scheduling: each request runs start to finish on its own.
- AuthAction.LogoutAction: `redirect()` is modelled as returning its target. In the framework, `redirect('/login')` throws a redirect signal inside the `try`, whose `catch` then redirects to `/`. That behaviour belongs to the framework and is not modelled.
- AuthAction.LoginAction: the redirect to `/` is modelled as a returned outcome for the same reason.
- The route matcher in `src/middleware.ts` runs in the framework's path matcher. It is not part of this model, and neither is the choice of which middleware is installed.
- `src/actions/jwt-auth.action.ts` and `src/actions/session-auth.action.ts` are one-line wrappers around `login`/`logout` and a redirect. They are not modelled separately.
- The UI modules and view models (`login.view.tsx`, `home.view.tsx`, `navigation.tsx`, the pages) are not part of this model.
- `publicRoutes` (`src/constants/route.constant.ts`) is not part of this model. It is a parameter of every member that classifies routes.
- In the JWT scheme the cookies outlive their tokens by far (maxAge 900 s and 7 days against 10 s and 30 s tokens). This is stated but not treated as a defect, because expired tokens fail verification.

## Findings

| source | as written | input that shows it | evidently intended | confidence | as-written member | corrected member |
|---|---|---|---|---|---|---|
| src/middlewares/session-auth.middleware.ts:15-28 | The middleware calls `updateSession(request)` only to test it for truthiness. It then answers `NextResponse.next()`, dropping the response that carries the re-signed `session` cookie, so the browser never receives the renewal and the session ends one hour after login however active the user is. | A session made at time 0, then visits to a protected page at 30 min and at 60 min. As written the second visit is redirected to `/login`. | `updateSession` renews the session on every checked request, per the comment at `src/libs/session-auth.lib.ts:68`. The middleware should return that response when it lets the request through, so that the session slides (`SessionMiddleware.SessionAuthMiddlewareForwarding`). | not executed | SessionTrace.AsWrittenSessionNeverSlides | SessionTrace.ForwardedSessionSlides |
