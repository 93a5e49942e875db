/** The server actions of the remote-backed variant: read and write the token
    cookies, log in through the remote service, and log out. */
module AuthAction {
  import opened Wrappers
  import opened Jose
  import opened Http
  import opened CookieConstant
  import opened Repository

  /** What an action ends in: the form state it returns for display, or a
      redirect. */
  datatype ActionResult = FormState(message: string, status: string) | Redirected(path: string)

  /** `getAuthToken`: the two cookie values, `''` for a cookie that is absent. */
  method GetAuthToken(store: CookieStore) returns (accessToken: string, refreshToken: string)
    ensures accessToken == if ACCESS_TOKEN in store.jar then store.jar[ACCESS_TOKEN].value else ""
    ensures refreshToken == if REFRESH_TOKEN in store.jar then store.jar[REFRESH_TOKEN].value else ""
  {
    var access := store.Get(ACCESS_TOKEN);
    var refresh := store.Get(REFRESH_TOKEN);
    accessToken := if access.Some? then access.value else "";
    refreshToken := if refresh.Some? then refresh.value else "";
  }

  /** `setAuthToken`: both cookies, each under its own name and policy. */
  method SetAuthToken(store: CookieStore, accessToken: string, refreshToken: string, nodeEnv: string)
    modifies store
    ensures store.jar == WithTokenCookies(old(store.jar), TokenPair(accessToken, refreshToken), nodeEnv)
  {
    store.Set(ACCESS_TOKEN, accessToken, AccessTokenCookieOptions(nodeEnv));
    store.Set(REFRESH_TOKEN, refreshToken, RefreshTokenCookieOptions(nodeEnv));
  }

  /** The message `loginAction` shows for a caught error. */
  function LoginFailure(error: RemoteError): (message: string)
    ensures "Login failed: " <= message
  {
    "Login failed: " + match error
                       case ErrorMessage(m) => m
                       case OtherThrown => "Unknown error"
  }

  const MissingFields := "Username and password are required"

  /** `loginAction`: with a missing or empty username or password it answers
      with an error and neither calls the remote service nor writes a cookie;
      otherwise it logs in remotely, and on success writes both cookies and
      redirects to `/`, on failure writes nothing and answers with the reason. */
  method LoginAction(formData: map<string, string>, nodeEnv: string, store: CookieStore, repo: AuthRepository)
    returns (r: ActionResult)
    modifies store, repo
    ensures r.FormState? ==> r.status == "error" && "Login failed: " <= r.message
    ensures r.FormState? ==> store.jar == old(store.jar)
    ensures !(Truthy(Lookup(formData, "username")) && Truthy(Lookup(formData, "password"))) ==>
              && r == FormState(LoginFailure(ErrorMessage(MissingFields)), "error")
              && repo.calls == old(repo.calls)
    ensures Truthy(Lookup(formData, "username")) && Truthy(Lookup(formData, "password")) ==>
              var username, password := formData["username"], formData["password"];
              && repo.calls == old(repo.calls) + [LoginCall(username, password)]
              && match repo.loginReply(username, password)
                 case Success(tokens) =>
                   r == Redirected("/") && store.jar == WithTokenCookies(old(store.jar), tokens, nodeEnv)
                 case Failure(error) =>
                   r == FormState(LoginFailure(error), "error")
  {
    var username := Lookup(formData, "username");
    var password := Lookup(formData, "password");
    if !Truthy(username) || !Truthy(password) {
      return FormState(LoginFailure(ErrorMessage(MissingFields)), "error");
    }
    var reply := repo.Login(username.value, password.value);
    match reply {
      case Failure(error) =>
        return FormState(LoginFailure(error), "error");
      case Success(tokens) =>
        store.Set(ACCESS_TOKEN, tokens.accessToken, AccessTokenCookieOptions(nodeEnv));
        store.Set(REFRESH_TOKEN, tokens.refreshToken, RefreshTokenCookieOptions(nodeEnv));
    }
    return Redirected("/");
  }

  /** `logoutAction`: both cookies are deleted before the remote call, so they
      are gone whatever it answers; it redirects to `/login`, or to `/` when the
      remote logout fails. */
  method LogoutAction(store: CookieStore, repo: AuthRepository) returns (r: ActionResult)
    modifies store, repo
    ensures store.jar == old(store.jar) - {ACCESS_TOKEN, REFRESH_TOKEN}
    ensures repo.calls == old(repo.calls) + [LogoutCall]
    ensures r == if repo.logoutReply.None? then Redirected("/login") else Redirected("/")
  {
    store.Delete(ACCESS_TOKEN);
    store.Delete(REFRESH_TOKEN);
    var failure := repo.Logout();
    if failure.Some? {
      return Redirected("/");
    }
    return Redirected("/login");
  }
}
