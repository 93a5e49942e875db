/** Classification of a request path as public or protected. */
module Routes {
  import opened Http

  datatype RouteFlags = RouteFlags(isPublicRoute: bool, isProtectedRoute: bool)

  /** `Array.prototype.includes` on a list of strings. */
  function Includes(routes: seq<string>, path: string): (r: bool)
    ensures r <==> path in routes
  {
    if routes == [] then false else routes[0] == path || Includes(routes[1..], path)
  }

  /** `checkRoute`: a request is public exactly when its pathname is listed in
      `publicRoutes`, and protected otherwise. */
  function CheckRoute(publicRoutes: seq<string>, request: Request): (f: RouteFlags)
    ensures f.isPublicRoute <==> request.url.pathname in publicRoutes
    ensures f.isProtectedRoute <==> !f.isPublicRoute
  {
    var isPublicRoute := Includes(publicRoutes, request.url.pathname);
    RouteFlags(isPublicRoute, !isPublicRoute)
  }

  /** The classification reads the pathname only: not the origin, the query
      or the cookies. */
  lemma ClassifiesByPathnameOnly(publicRoutes: seq<string>, request: Request, other: Request)
    requires request.url.pathname == other.url.pathname
    ensures CheckRoute(publicRoutes, request) == CheckRoute(publicRoutes, other)
  {
  }

  /** Matching is exact: a path that extends a public path is protected unless
      it is listed itself. A corollary of `CheckRoute`'s contract, which needs
      only the last premise; the prefix premises set the scene it illustrates. */
  lemma NoPrefixMatching(publicRoutes: seq<string>, request: Request, publicPath: string)
    requires publicPath in publicRoutes
    requires |request.url.pathname| > |publicPath| && request.url.pathname[..|publicPath|] == publicPath
    requires request.url.pathname !in publicRoutes
    ensures CheckRoute(publicRoutes, request).isProtectedRoute
  {
  }
}
