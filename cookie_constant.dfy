/** The cookie policy of the remote-backed variant: the two cookie names and
    the attributes each token cookie is written with. */
module CookieConstant {
  import opened Wrappers
  import opened Jose
  import opened Http

  const ACCESS_TOKEN := "accessToken"
  const REFRESH_TOKEN := "refreshToken"

  /** `secure` follows `process.env.NODE_ENV === 'production'`. */
  predicate Secure(nodeEnv: string) {
    nodeEnv == "production"
  }

  /** `accessTokenCookieOptions`: ten seconds. */
  function AccessTokenCookieOptions(nodeEnv: string): (o: CookieOptions)
    ensures o.maxAge == Some(10) && o.expires.None?
    ensures o.httpOnly == Some(true) && o.sameSite == Some(Strict) && o.path == Some("/")
    ensures o.secure == Some(nodeEnv == "production")
  {
    CookieOptions(
      httpOnly := Some(true), secure := Some(Secure(nodeEnv)), sameSite := Some(Strict),
      path := Some("/"), maxAge := Some(10), expires := None)
  }

  /** `refreshTokenCookieOptions`: thirty seconds. */
  function RefreshTokenCookieOptions(nodeEnv: string): (o: CookieOptions)
    ensures o.maxAge == Some(30) && o.expires.None?
    ensures o.httpOnly == Some(true) && o.sameSite == Some(Strict) && o.path == Some("/")
    ensures o.secure == Some(nodeEnv == "production")
  {
    CookieOptions(
      httpOnly := Some(true), secure := Some(Secure(nodeEnv)), sameSite := Some(Strict),
      path := Some("/"), maxAge := Some(30), expires := None)
  }

  /** The two names differ; the refresh cookie outlives the access cookie; both
      are http-only, same-site strict and scoped to `/`; and both are secure
      exactly in production. */
  lemma CookiePolicy(nodeEnv: string)
    ensures ACCESS_TOKEN != REFRESH_TOKEN
    ensures AccessTokenCookieOptions(nodeEnv).maxAge.Some? && RefreshTokenCookieOptions(nodeEnv).maxAge.Some?
    ensures RefreshTokenCookieOptions(nodeEnv).maxAge.value > AccessTokenCookieOptions(nodeEnv).maxAge.value
    ensures forall o | o in {AccessTokenCookieOptions(nodeEnv), RefreshTokenCookieOptions(nodeEnv)} ::
              o.httpOnly == Some(true) && o.sameSite == Some(Strict) && o.path == Some("/")
              && (o.secure == Some(true) <==> nodeEnv == "production")
              && o.secure.Some?
  {
  }

  /** The pair of writes the remote-backed variant makes whenever it receives
      a token pair: the access token under its name and policy, then the
      refresh token under its own. */
  function WithTokenCookies(jar: map<string, Cookie>, tokens: TokenPair, nodeEnv: string): (r: map<string, Cookie>)
    ensures r.Keys == jar.Keys + {ACCESS_TOKEN, REFRESH_TOKEN}
    ensures r[ACCESS_TOKEN] == Cookie(tokens.accessToken, AccessTokenCookieOptions(nodeEnv))
    ensures r[REFRESH_TOKEN] == Cookie(tokens.refreshToken, RefreshTokenCookieOptions(nodeEnv))
    ensures forall name | name in jar && name != ACCESS_TOKEN && name != REFRESH_TOKEN :: r[name] == jar[name]
  {
    jar[ACCESS_TOKEN := Cookie(tokens.accessToken, AccessTokenCookieOptions(nodeEnv))]
       [REFRESH_TOKEN := Cookie(tokens.refreshToken, RefreshTokenCookieOptions(nodeEnv))]
  }
}
