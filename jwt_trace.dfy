/** A browser going through the JWT middleware request after request,
    sending back whatever cookies the previous request left. */
module JwtTrace {
  import opened Wrappers
  import opened Jose
  import opened Http
  import opened Config
  import opened RouteGate
  import opened JwtAuthLib
  import opened JwtMiddleware
  import opened Browsing

  /** The responses to `visits`, made in order from a browser holding
      `cookies`; each request starts from a store holding its own cookies.
      The browser then holds whatever that store holds when the middleware
      returns: writes made through `cookies()` reach the browser with the
      response the middleware returns, a redirect included. (A cookie set on
      a response object reaches it only if that object is returned; see
      `Browsing.Receive`.) */
  function Browse(publicRoutes: seq<string>, origin: string, cookies: map<string, string>, visits: seq<Visit>,
                  codec: Codec, env: Env): (responses: seq<Response>)
    ensures |responses| == |visits|
    decreases |visits|
  {
    if visits == [] then []
    else
      var h := Handle(publicRoutes, Request(VisitUrl(origin, visits[0]), cookies), Lift(cookies), codec, env, visits[0].nowMs);
      [h.response] + Browse(publicRoutes, origin, Values(h.jar), visits[1..], codec, env)
  }

  /** The browser holds the pair issued for `claims` at second `issuedAt`. */
  ghost predicate HoldsPairIssuedAt(cookies: map<string, string>, codec: Codec, env: Env, claims: Claims, issuedAt: int) {
    && ACCESS_COOKIE in cookies
    && cookies[ACCESS_COOKIE] == codec.sign(claims, env.jwtAccessSecret, ACCESS_TOKEN_EXPIRY, issuedAt)
    && REFRESH_COOKIE in cookies
    && cookies[REFRESH_COOKIE] == codec.sign(claims, env.jwtRefreshSecret, REFRESH_TOKEN_EXPIRY, issuedAt)
  }

  /** The rotation the middleware performs leaves the browser holding a pair
      issued at the visit's second. */
  lemma RotationHandsBackPair(cookies: map<string, string>, codec: Codec, env: Env, claims: Claims, nowMs: int)
    requires Lawful(codec)
    ensures var tokens := GenerateTokens(codec, env, claims, nowMs);
            HoldsPairIssuedAt(Values(WithAuthCookies(Lift(cookies), tokens, env.nodeEnv)), codec, env, claims, EpochSeconds(nowMs))
  {
  }

  /** Sliding sign-in: a browser that comes back less than 20 seconds
      (the refresh lifetime less the access lifetime) after each previous
      visit is treated as signed in on every visit, indefinitely. `lastSeen`
      is the latest visit so far, made while the held access token was live. */
  lemma {:induction false} SignedInWhileActive(publicRoutes: seq<string>, origin: string, cookies: map<string, string>,
                                                visits: seq<Visit>, codec: Codec, env: Env,
                                                claims: Claims, issuedAt: int, lastSeen: int)
    requires Lawful(codec)
    requires HoldsPairIssuedAt(cookies, codec, env, claims, issuedAt)
    requires lastSeen < issuedAt + ACCESS_TOKEN_EXPIRY
    requires Paced(lastSeen, visits, REFRESH_TOKEN_EXPIRY - ACCESS_TOKEN_EXPIRY)
    ensures forall i | 0 <= i < |visits| ::
              Browse(publicRoutes, origin, cookies, visits, codec, env)[i]
              == Gate(visits[i].pathname in publicRoutes, true, VisitUrl(origin, visits[i]))
    decreases |visits|
  {
    if visits != [] {
      var visit := visits[0];
      var now := EpochSeconds(visit.nowMs);
      var request := Request(VisitUrl(origin, visit), cookies);
      var resolution := GetAuthStatusSpec(request, Lift(cookies), codec, env, visit.nowMs);
      var next := Values(resolution.jar);
      if now < issuedAt + ACCESS_TOKEN_EXPIRY {
        assert resolution == Resolution(Authenticated(claims), Lift(cookies));
        ValuesOfLift(cookies);
        SignedInWhileActive(publicRoutes, origin, next, visits[1..], codec, env, claims, issuedAt, now);
      } else {
        var tokens := GenerateTokens(codec, env, claims, visit.nowMs);
        assert RefreshTokensSpec(Lift(cookies), codec, env, visit.nowMs) == Rotation(Some(tokens), WithAuthCookies(Lift(cookies), tokens, env.nodeEnv));
        assert resolution == Resolution(Refreshed(claims), WithAuthCookies(Lift(cookies), tokens, env.nodeEnv));
        RotationHandsBackPair(cookies, codec, env, claims, visit.nowMs);
        SignedInWhileActive(publicRoutes, origin, next, visits[1..], codec, env, claims, now, now);
      }
      var rest := Browse(publicRoutes, origin, next, visits[1..], codec, env);
      assert Browse(publicRoutes, origin, cookies, visits, codec, env) == [Gate(visit.pathname in publicRoutes, true, VisitUrl(origin, visit))] + rest;
    }
  }

  /** Right after `login`, a browser that keeps visiting at that pace is
      signed in on every visit. */
  lemma SignedInAfterLogin(publicRoutes: seq<string>, origin: string, cookies: map<string, string>, visits: seq<Visit>,
                           codec: Codec, env: Env, email: string, loginMs: int)
    requires Lawful(codec)
    requires cookies == Values(WithAuthCookies(map[], GenerateTokens(codec, env, UserClaims(email), loginMs), env.nodeEnv))
    requires Paced(EpochSeconds(loginMs), visits, REFRESH_TOKEN_EXPIRY - ACCESS_TOKEN_EXPIRY)
    ensures forall i | 0 <= i < |visits| ::
              Browse(publicRoutes, origin, cookies, visits, codec, env)[i]
              == Gate(visits[i].pathname in publicRoutes, true, VisitUrl(origin, visits[i]))
  {
    SignedInWhileActive(publicRoutes, origin, cookies, visits, codec, env, UserClaims(email), EpochSeconds(loginMs), EpochSeconds(loginMs));
  }

  /** The 30-second refresh window runs from the last rotation, not from the
      last visit: a visit 9 seconds after login needs no rotation, so a visit
      29 seconds after that finds both tokens expired and is sent to `/login`. */
  lemma RefreshWindowRunsFromRotation(publicRoutes: seq<string>, origin: string, codec: Codec, env: Env, email: string)
    requires Lawful(codec)
    requires "/profile" !in publicRoutes
    ensures var cookies := Values(WithAuthCookies(map[], GenerateTokens(codec, env, UserClaims(email), 0), env.nodeEnv));
            Browse(publicRoutes, origin, cookies, [Visit("/profile", 9000), Visit("/profile", 38000)], codec, env)
            == [Proceed, Redirect(Url(origin, "/login", ""))]
  {
    var cookies := Values(WithAuthCookies(map[], GenerateTokens(codec, env, UserClaims(email), 0), env.nodeEnv));
    var visits := [Visit("/profile", 9000), Visit("/profile", 38000)];
    assert EpochSeconds(9000) == 9 && EpochSeconds(38000) == 38 && EpochSeconds(0) == 0;
    var first := GetAuthStatusSpec(Request(VisitUrl(origin, visits[0]), cookies), Lift(cookies), codec, env, 9000);
    assert first.jar == Lift(cookies);
    ValuesOfLift(cookies);
    assert visits[1..] == [Visit("/profile", 38000)];
    var second := GetAuthStatusSpec(Request(VisitUrl(origin, visits[1]), cookies), Lift(cookies), codec, env, 38000);
    assert RefreshTokensSpec(Lift(cookies), codec, env, 38000).tokens == None;
    assert second.status == Unauthenticated;
  }
}
