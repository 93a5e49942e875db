/** The remote-backed session resolver: trusts an unexpired access cookie,
    and otherwise asks the remote service to rotate the token pair. */
module AuthStatusMiddleware {
  import opened Wrappers
  import opened Jose
  import opened Http
  import opened CookieConstant
  import opened JwtUtil
  import opened Repository

  datatype AuthStatus = Authenticated | Unauthenticated

  /** The exit the resolver takes before it could reach the remote service:
      one per `return` of the source, plus the `jwtDecode` exception. */
  datatype Branch = AccessValid | NoRefreshToken | RefreshExpired | AskRemote | DecodeThrew

  /** Which exit a request takes. Expiry is read from the decoded tokens
      alone, so a malformed token that is consulted throws out of the resolver. */
  function BranchOf(request: Request, decode: string -> Decoded, nowMs: int): (b: Branch)
    ensures var access := Lookup(request.cookies, ACCESS_TOKEN);
            b == AccessValid <==> Truthy(access) && IsTokenExpired(decode, access.value, nowMs) == Success(false)
    ensures var access := Lookup(request.cookies, ACCESS_TOKEN);
            var refresh := Lookup(request.cookies, REFRESH_TOKEN);
            b == AskRemote <==>
              && (!Truthy(access) || IsTokenExpired(decode, access.value, nowMs) == Success(true))
              && Truthy(refresh) && IsTokenExpired(decode, refresh.value, nowMs) == Success(false)
    ensures var access := Lookup(request.cookies, ACCESS_TOKEN);
            var refresh := Lookup(request.cookies, REFRESH_TOKEN);
            b == NoRefreshToken <==>
              (!Truthy(access) || IsTokenExpired(decode, access.value, nowMs) == Success(true)) && !Truthy(refresh)
    ensures var access := Lookup(request.cookies, ACCESS_TOKEN);
            var refresh := Lookup(request.cookies, REFRESH_TOKEN);
            b == DecodeThrew <==>
              || (Truthy(access) && decode(access.value).Malformed?)
              || ((!Truthy(access) || IsTokenExpired(decode, access.value, nowMs) == Success(true))
                  && Truthy(refresh) && decode(refresh.value).Malformed?)
  {
    var accessToken := Lookup(request.cookies, ACCESS_TOKEN);
    var refreshToken := Lookup(request.cookies, REFRESH_TOKEN);
    var accessExpired := if Truthy(accessToken) then IsTokenExpired(decode, accessToken.value, nowMs) else Success(true);
    if accessExpired.Failure? then DecodeThrew
    else if !accessExpired.value then AccessValid
    else if !Truthy(refreshToken) then NoRefreshToken
    else
      match IsTokenExpired(decode, refreshToken.value, nowMs)
      case Failure(_) => DecodeThrew
      case Success(true) => RefreshExpired
      case Success(false) => AskRemote
  }

  /** What `getAuthStatus` resolves to on each exit, given the remote reply
      when it is asked; a failed refresh reads as signed out. */
  function StatusOf(branch: Branch, reply: Result<TokenPair, RemoteError>): (r: Result<AuthStatus, Thrown>)
    ensures r == Success(Authenticated) <==> branch == AccessValid || (branch == AskRemote && reply.Success?)
    ensures r == Success(Unauthenticated) <==>
              branch in {NoRefreshToken, RefreshExpired} || (branch == AskRemote && reply.Failure?)
    ensures r.Failure? <==> branch == DecodeThrew
  {
    match branch
    case AccessValid => Success(Authenticated)
    case NoRefreshToken => Success(Unauthenticated)
    case RefreshExpired => Success(Unauthenticated)
    case DecodeThrew => Failure(Thrown)
    case AskRemote => if reply.Success? then Success(Authenticated) else Success(Unauthenticated)
  }

  /** Fail closed: the resolver reports a signed-in caller only for a live
      access cookie or a pair the remote service has just issued. */
  lemma AuthenticatedOnlyOnEvidence(request: Request, decode: string -> Decoded, nowMs: int, reply: Result<TokenPair, RemoteError>)
    requires StatusOf(BranchOf(request, decode, nowMs), reply) == Success(Authenticated)
    ensures var access := Lookup(request.cookies, ACCESS_TOKEN);
            || (Truthy(access) && decode(access.value).Parsed?
                && (decode(access.value).exp.None? || nowMs <= decode(access.value).exp.value * SECOND))
            || (BranchOf(request, decode, nowMs) == AskRemote && reply.Success?)
  {
  }

  /** `getAuthStatus`: reads both cookies from the request; only on the
      `AskRemote` exit does it call the remote service, and only a successful
      reply is written back, access cookie first, each with its own policy. A
      failed refresh leaves the existing cookies in place. */
  method GetAuthStatus(request: Request, decode: string -> Decoded, nowMs: int, nodeEnv: string,
                       store: CookieStore, repo: AuthRepository)
    returns (r: Result<AuthStatus, Thrown>)
    modifies store, repo
    ensures r == StatusOf(BranchOf(request, decode, nowMs), repo.refreshReply)
    ensures repo.calls == old(repo.calls) + (if BranchOf(request, decode, nowMs) == AskRemote then [RefreshTokenCall] else [])
    ensures store.jar == if BranchOf(request, decode, nowMs) == AskRemote && repo.refreshReply.Success?
                         then WithTokenCookies(old(store.jar), repo.refreshReply.value, nodeEnv)
                         else old(store.jar)
  {
    var accessToken := Lookup(request.cookies, ACCESS_TOKEN);
    var refreshToken := Lookup(request.cookies, REFRESH_TOKEN);

    if Truthy(accessToken) {
      var expired := IsTokenExpired(decode, accessToken.value, nowMs);
      if expired.Failure? {
        return Failure(Thrown);
      }
      if !expired.value {
        return Success(Authenticated);
      }
    }

    if !Truthy(refreshToken) {
      return Success(Unauthenticated);
    }

    var expired := IsTokenExpired(decode, refreshToken.value, nowMs);
    if expired.Failure? {
      return Failure(Thrown);
    }
    if expired.value {
      return Success(Unauthenticated);
    }

    var reply := repo.RefreshToken();
    match reply {
      case Success(tokens) =>
        store.Set(ACCESS_TOKEN, tokens.accessToken, AccessTokenCookieOptions(nodeEnv));
        store.Set(REFRESH_TOKEN, tokens.refreshToken, RefreshTokenCookieOptions(nodeEnv));
        return Success(Authenticated);
      case Failure(_) =>
        return Success(Unauthenticated);
    }
  }
}
