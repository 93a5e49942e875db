/** The session variant: one signed session token in a `session` cookie,
    renewed for another hour whenever it is checked. */
module SessionAuthLib {
  import opened Wrappers
  import opened Jose
  import opened Http
  import opened Config

  const SESSION := "session"

  /** The session lifetime: `'1h'` for the token, one hour in milliseconds for
      the payload's `expires` and the cookie. */
  const SESSION_EXPIRY := 60 * 60
  const ONE_HOUR_MS := 60 * 60 * 1000

  /** `encrypt`: signs under `SECRET_KEY` with a one-hour expiry. */
  function Encrypt(codec: Codec, env: Env, payload: Claims, nowMs: int): (session: string)
    ensures Lawful(codec) ==>
              session != "" && codec.decode(session) == Parsed(Some(EpochSeconds(nowMs) + SESSION_EXPIRY))
  {
    codec.sign(payload, env.secretKey, SESSION_EXPIRY, EpochSeconds(nowMs))
  }

  /** `decrypt`: the verified claims; its exception is not caught. */
  function Decrypt(codec: Codec, env: Env, input: string, nowMs: int): (r: Result<Claims, Thrown>)
    ensures Lawful(codec) ==>
              forall claims, key, ttl, iat | input == codec.sign(claims, key, ttl, iat) ::
                r == if key == env.secretKey && EpochSeconds(nowMs) < iat + ttl then Success(claims) else Failure(Thrown)
  {
    match codec.verify(input, env.secretKey, EpochSeconds(nowMs))
    case Some(payload) => Success(payload)
    case None => Failure(Thrown)
  }

  /** A session decrypts to the payload it was made from for the hour after
      it was made, and throws from then on. */
  lemma DecryptInvertsEncrypt(codec: Codec, env: Env, payload: Claims, madeMs: int, nowMs: int)
    requires Lawful(codec)
    ensures Decrypt(codec, env, Encrypt(codec, env, payload, madeMs), nowMs)
            == if EpochSeconds(nowMs) < EpochSeconds(madeMs) + SESSION_EXPIRY then Success(payload) else Failure(Thrown)
  {
  }

  /** The attributes of the `session` cookie: http-only, expiring at `expiresMs`. */
  function SessionCookieOptions(expiresMs: int): CookieOptions {
    CookieOptions(
      httpOnly := Some(true), secure := None, sameSite := None,
      path := None, maxAge := None, expires := Some(expiresMs))
  }

  /** The payload `login` seals: the placeholder user and an expiry one hour on. */
  function SessionPayload(email: string, nowMs: int): Claims {
    map["user" := Record(map["id" := "1", "email" := email, "name" := "Test User"]),
        "expires" := Time(nowMs + ONE_HOUR_MS)]
  }

  /** `login`: without a non-empty email and password it answers 400 and sets
      no cookie; otherwise it sets an http-only `session` cookie whose expiry is
      the payload's `expires`, an hour from now, and returns nothing. */
  method Login(formData: map<string, string>, codec: Codec, env: Env, nowMs: int, store: CookieStore)
    returns (r: Option<Response>)
    modifies store
    ensures !HasEmailAndPassword(formData) ==>
              r == Some(Json(400, ErrorBody("Email and password are required"))) && store.jar == old(store.jar)
    ensures HasEmailAndPassword(formData) ==>
              var payload := SessionPayload(formData["email"], nowMs);
              && r == None
              && store.jar == old(store.jar)[SESSION := Cookie(Encrypt(codec, env, payload, nowMs), SessionCookieOptions(nowMs + ONE_HOUR_MS))]
              && payload["expires"] == Time(nowMs + ONE_HOUR_MS)
              && store.jar[SESSION].options.expires == Some(nowMs + ONE_HOUR_MS)
              && store.jar[SESSION].options.httpOnly == Some(true)
  {
    var email := Lookup(formData, "email");
    var password := Lookup(formData, "password");
    if !Truthy(email) || !Truthy(password) {
      return Some(Json(400, ErrorBody("Email and password are required")));
    }
    var expires := nowMs + ONE_HOUR_MS;
    var session := Encrypt(codec, env, SessionPayload(email.value, nowMs), nowMs);
    store.Set(SESSION, session, SessionCookieOptions(expires));
    return None;
  }

  /** `logout`: deletes the `session` cookie and no other. */
  method Logout(store: CookieStore)
    modifies store
    ensures store.jar == old(store.jar) - {SESSION}
  {
    store.Delete(SESSION);
  }

  /** `getSession`: nothing without a (non-empty) `session` cookie, otherwise
      its decrypted payload; a failing decrypt propagates. */
  method GetSession(store: CookieStore, codec: Codec, env: Env, nowMs: int) returns (r: Result<Option<Claims>, Thrown>)
    ensures SESSION !in store.jar || store.jar[SESSION].value == "" ==> r == Success(None)
    ensures SESSION in store.jar && store.jar[SESSION].value != "" ==>
              match Decrypt(codec, env, store.jar[SESSION].value, nowMs)
              case Success(payload) => r == Success(Some(payload))
              case Failure(e) => r == Failure(e)
  {
    var session := store.Get(SESSION);
    if !Truthy(session) {
      return Success(None);
    }
    var payload := Decrypt(codec, env, session.value, nowMs);
    match payload {
      case Success(p) => r := Success(Some(p));
      case Failure(e) => r := Failure(e);
    }
  }

  /** The payload after `parsed.expires = new Date(Date.now() + 1h)`: every
      other field kept, `expires` an hour from now. */
  function Renewed(parsed: Claims, nowMs: int): (renewed: Claims)
    ensures renewed.Keys == parsed.Keys + {"expires"}
    ensures renewed["expires"] == Time(nowMs + ONE_HOUR_MS)
    ensures forall field | field in parsed && field != "expires" :: renewed[field] == parsed[field]
  {
    parsed["expires" := Time(nowMs + ONE_HOUR_MS)]
  }

  /** `updateSession`: nothing without a (non-empty) `session` cookie on the
      request; a failing decrypt propagates; otherwise a `next()` response
      setting a renewed `session` cookie that expires an hour from now. */
  function UpdateSession(request: Request, codec: Codec, env: Env, nowMs: int): (r: Result<Option<Response>, Thrown>)
    ensures r == Success(None) <==> !Truthy(Lookup(request.cookies, SESSION))
    ensures r.Failure? <==> Truthy(Lookup(request.cookies, SESSION)) && Decrypt(codec, env, request.cookies[SESSION], nowMs).Failure?
    ensures r.Success? && r.value.Some? ==>
              && r.value.value.Next? && r.value.value.setCookies.Keys == {SESSION}
              && r.value.value.setCookies[SESSION].options == SessionCookieOptions(nowMs + ONE_HOUR_MS)
  {
    var session := Lookup(request.cookies, SESSION);
    if !Truthy(session) then Success(None)
    else
      match Decrypt(codec, env, session.value, nowMs)
      case Failure(e) => Failure(e)
      case Success(parsed) =>
        var renewed := Renewed(parsed, nowMs);
        Success(Some(Next(map[SESSION := Cookie(Encrypt(codec, env, renewed, nowMs), SessionCookieOptions(nowMs + ONE_HOUR_MS))])))
  }

  /** The renewed cookie holds the same session: it decrypts, for the next
      hour, to the old payload with only `expires` moved on. */
  lemma RenewalKeepsSession(request: Request, codec: Codec, env: Env, nowMs: int, laterMs: int)
    requires Lawful(codec)
    requires UpdateSession(request, codec, env, nowMs).Success? && UpdateSession(request, codec, env, nowMs).value.Some?
    requires EpochSeconds(laterMs) < EpochSeconds(nowMs) + SESSION_EXPIRY
    ensures var parsed := Decrypt(codec, env, request.cookies[SESSION], nowMs).value;
            var cookie := UpdateSession(request, codec, env, nowMs).value.value.setCookies[SESSION];
            Decrypt(codec, env, cookie.value, laterMs) == Success(Renewed(parsed, nowMs))
  {
    var parsed := Decrypt(codec, env, request.cookies[SESSION], nowMs).value;
    DecryptInvertsEncrypt(codec, env, Renewed(parsed, nowMs), nowMs, laterMs);
  }
}
