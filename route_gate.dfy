/** The routing decision every middleware variant makes once it knows the
    route class and whether the caller is signed in. */
module RouteGate {
  import opened Http

  /** The decision table: signed-in callers are sent away from public pages to
      `/`, signed-out callers are sent away from protected pages to `/login`,
      and every other request goes through. */
  function Gate(isPublicRoute: bool, signedIn: bool, url: Url): (r: Response)
    ensures isPublicRoute && signedIn ==> r == Redirect(Url(url.origin, "/", ""))
    ensures !isPublicRoute && !signedIn ==> r == Redirect(Url(url.origin, "/login", ""))
    ensures isPublicRoute && !signedIn ==> r == Next(map[])
    ensures !isPublicRoute && signedIn ==> r == Next(map[])
  {
    if isPublicRoute != signedIn then Proceed
    else Redirect(RedirectTo(if signedIn then "/" else "/login", url))
  }

  /** A redirect happens exactly when the caller's state does not fit the route
      class; a public page never leads to `/login`, a protected page never to
      `/`; and a redirect stays on the request's own origin. */
  lemma GateRedirectsOnlyAcrossClasses(isPublicRoute: bool, signedIn: bool, url: Url)
    ensures Gate(isPublicRoute, signedIn, url).Redirect? <==> isPublicRoute == signedIn
    ensures !Gate(isPublicRoute, signedIn, url).Redirect? ==> Gate(isPublicRoute, signedIn, url) == Proceed
    ensures isPublicRoute ==> Gate(isPublicRoute, signedIn, url) != Redirect(RedirectTo("/login", url))
    ensures !isPublicRoute ==> Gate(isPublicRoute, signedIn, url) != Redirect(RedirectTo("/", url))
    ensures Gate(isPublicRoute, signedIn, url).Redirect? ==> Gate(isPublicRoute, signedIn, url).location.origin == url.origin
  {
  }
}
