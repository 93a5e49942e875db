/** The middleware of the session variant, as written and with the renewed
    session cookie forwarded. */
module SessionMiddleware {
  import opened Wrappers
  import opened Http
  import opened Config
  import opened Jose
  import opened Routes
  import opened RouteGate
  import opened SessionAuthLib

  /** `updateSession` found a session (rather than nothing, or an exception). */
  predicate HasSession(session: Result<Option<Response>, Thrown>) {
    session.Success? && session.value.Some?
  }

  /** `sessionAuthMiddleware` as written: the routing table `Gate` with
      "`updateSession` returned a response" as signed in, an exception reading
      as signed out; and on the way through it answers a fresh `next()`,
      dropping the response that carries the renewed cookie. */
  function SessionAuthMiddleware(publicRoutes: seq<string>, request: Request, codec: Codec, env: Env, nowMs: int): (r: Response)
    ensures r == Gate(request.url.pathname in publicRoutes, HasSession(UpdateSession(request, codec, env, nowMs)), request.url)
    ensures !r.Redirect? ==> r == Proceed
  {
    var flags := CheckRoute(publicRoutes, request);
    match UpdateSession(request, codec, env, nowMs)
    case Success(session) =>
      if flags.isPublicRoute && session.Some? then Redirect(RedirectTo("/", request.url))
      else if flags.isProtectedRoute && session.None? then Redirect(RedirectTo("/login", request.url))
      else Proceed
    case Failure(_) =>
      if flags.isProtectedRoute then Redirect(RedirectTo("/login", request.url))
      else Proceed
  }

  /** The middleware with the renewal kept: the same decisions, but a request
      that goes through with a session gets `updateSession`'s response, so the
      browser receives the renewed cookie. */
  function SessionAuthMiddlewareForwarding(publicRoutes: seq<string>, request: Request, codec: Codec, env: Env, nowMs: int): (r: Response)
    ensures r.Redirect? <==> SessionAuthMiddleware(publicRoutes, request, codec, env, nowMs).Redirect?
    ensures r.Redirect? ==> r == SessionAuthMiddleware(publicRoutes, request, codec, env, nowMs)
    ensures !r.Redirect? && HasSession(UpdateSession(request, codec, env, nowMs)) ==>
              r == UpdateSession(request, codec, env, nowMs).value.value
  {
    var flags := CheckRoute(publicRoutes, request);
    match UpdateSession(request, codec, env, nowMs)
    case Success(session) =>
      if flags.isPublicRoute && session.Some? then Redirect(RedirectTo("/", request.url))
      else if flags.isProtectedRoute && session.None? then Redirect(RedirectTo("/login", request.url))
      else if session.Some? then session.value
      else Proceed
    case Failure(_) =>
      if flags.isProtectedRoute then Redirect(RedirectTo("/login", request.url))
      else Proceed
  }
}
