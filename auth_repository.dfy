/** The remote identity service, reached over HTTP. Its answers are not
    computed here: each repository object is given the reply it returns to
    each kind of call, and it records the calls made on it. */
module Repository {
  import opened Wrappers
  import opened Jose

  /** Why a remote call rejected: an `Error` carrying a message, or some other
      thrown value. */
  datatype RemoteError = ErrorMessage(message: string) | OtherThrown

  datatype Call = LoginCall(username: string, password: string) | RefreshTokenCall | LogoutCall

  class AuthRepository {
    /** The calls made so far, oldest first. */
    var calls: seq<Call>
    /** The reply to `login({ username, password })`. */
    const loginReply: (string, string) -> Result<TokenPair, RemoteError>
    /** The reply to `refreshToken()`. */
    const refreshReply: Result<TokenPair, RemoteError>
    /** The reply to `logout()`: `None` when it resolves. */
    const logoutReply: Option<RemoteError>

    constructor (loginReply: (string, string) -> Result<TokenPair, RemoteError>,
                 refreshReply: Result<TokenPair, RemoteError>,
                 logoutReply: Option<RemoteError>)
      ensures calls == []
      ensures this.loginReply == loginReply && this.refreshReply == refreshReply && this.logoutReply == logoutReply
    {
      this.loginReply := loginReply;
      this.refreshReply := refreshReply;
      this.logoutReply := logoutReply;
      calls := [];
    }

    /** `POST auth/login` */
    method Login(username: string, password: string) returns (r: Result<TokenPair, RemoteError>)
      modifies this
      ensures calls == old(calls) + [LoginCall(username, password)]
      ensures r == loginReply(username, password)
    {
      calls := calls + [LoginCall(username, password)];
      r := loginReply(username, password);
    }

    /** `POST auth/refresh-token` */
    method RefreshToken() returns (r: Result<TokenPair, RemoteError>)
      modifies this
      ensures calls == old(calls) + [RefreshTokenCall]
      ensures r == refreshReply
    {
      calls := calls + [RefreshTokenCall];
      r := refreshReply;
    }

    /** `POST auth/logout` */
    method Logout() returns (r: Option<RemoteError>)
      modifies this
      ensures calls == old(calls) + [LogoutCall]
      ensures r == logoutReply
    {
      calls := calls + [LogoutCall];
      r := logoutReply;
    }
  }
}
