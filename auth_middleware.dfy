/** The middleware of the remote-backed variant: classify the route, resolve
    the caller, then proceed or redirect. */
module RemoteMiddleware {
  import opened Wrappers
  import opened Http
  import opened Jose
  import opened Routes
  import opened RouteGate
  import opened Repository
  import opened AuthStatusMiddleware

  /** The decision over `(isPublicRoute, status)`: it is the routing table
      `Gate`, with `authenticated` as signed in. */
  function Decide(isPublicRoute: bool, status: AuthStatus, url: Url): (r: Response)
    ensures r == Gate(isPublicRoute, status == Authenticated, url)
  {
    if isPublicRoute && status == Authenticated then Redirect(RedirectTo("/", url))
    else if !isPublicRoute && status.Unauthenticated? then Redirect(RedirectTo("/login", url))
    else Proceed
  }

  /** `authMiddleware`: the response follows `Decide` on the resolved status,
      or the resolver's exception propagates; the cookie writes and remote
      calls are those of `GetAuthStatus`. */
  method AuthMiddleware(publicRoutes: seq<string>, request: Request, decode: string -> Decoded, nowMs: int,
                        nodeEnv: string, store: CookieStore, repo: AuthRepository)
    returns (r: Result<Response, Thrown>)
    modifies store, repo
    ensures r == match StatusOf(BranchOf(request, decode, nowMs), repo.refreshReply)
                 case Failure(e) => Failure(e)
                 case Success(status) => Success(Decide(CheckRoute(publicRoutes, request).isPublicRoute, status, request.url))
    ensures repo.calls == old(repo.calls) + (if BranchOf(request, decode, nowMs) == AskRemote then [RefreshTokenCall] else [])
    ensures store.jar == if BranchOf(request, decode, nowMs) == AskRemote && repo.refreshReply.Success?
                         then CookieConstant.WithTokenCookies(old(store.jar), repo.refreshReply.value, nodeEnv)
                         else old(store.jar)
  {
    var flags := CheckRoute(publicRoutes, request);
    var authStatus := GetAuthStatus(request, decode, nowMs, nodeEnv, store, repo);
    match authStatus {
      case Failure(e) => r := Failure(e);
      case Success(status) => r := Success(Decide(flags.isPublicRoute, status, request.url));
    }
  }
}
