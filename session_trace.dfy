/** A browser going through the session middleware request after request:
    as written the session never slides, with the renewal forwarded it does. */
module SessionTrace {
  import opened Wrappers
  import opened Jose
  import opened Http
  import opened Config
  import opened Browsing
  import opened SessionAuthLib
  import opened SessionMiddleware

  /** The responses to `visits`, made in order from a browser holding
      `cookies`, through the middleware as written or, when `forwardRenewal`
      holds, with the renewed cookie forwarded. */
  function BrowseSession(publicRoutes: seq<string>, origin: string, cookies: map<string, string>, visits: seq<Visit>,
                         codec: Codec, env: Env, forwardRenewal: bool): (responses: seq<Response>)
    ensures |responses| == |visits|
    decreases |visits|
  {
    if visits == [] then []
    else
      var request := Request(VisitUrl(origin, visits[0]), cookies);
      var response := if forwardRenewal then SessionAuthMiddlewareForwarding(publicRoutes, request, codec, env, visits[0].nowMs)
                      else SessionAuthMiddleware(publicRoutes, request, codec, env, visits[0].nowMs);
      [response] + BrowseSession(publicRoutes, origin, Receive(cookies, response), visits[1..], codec, env, forwardRenewal)
  }

  /** No visit is to a public page. */
  predicate AllProtected(publicRoutes: seq<string>, visits: seq<Visit>) {
    forall i | 0 <= i < |visits| :: visits[i].pathname !in publicRoutes
  }

  /** As written, the session ends one hour after it was made however active
      the browser is: every protected visit before then goes through, every one
      from then on is sent to `/login`. */
  lemma {:induction false} AsWrittenSessionNeverSlides(publicRoutes: seq<string>, origin: string, cookies: map<string, string>,
                                                        visits: seq<Visit>, codec: Codec, env: Env, payload: Claims, madeMs: int)
    requires Lawful(codec)
    requires SESSION in cookies && cookies[SESSION] == Encrypt(codec, env, payload, madeMs)
    requires AllProtected(publicRoutes, visits)
    ensures forall i | 0 <= i < |visits| ::
              BrowseSession(publicRoutes, origin, cookies, visits, codec, env, false)[i]
              == if EpochSeconds(visits[i].nowMs) < EpochSeconds(madeMs) + SESSION_EXPIRY then Proceed
                 else Redirect(Url(origin, "/login", ""))
    decreases |visits|
  {
    if visits != [] {
      var visit := visits[0];
      var request := Request(VisitUrl(origin, visit), cookies);
      DecryptInvertsEncrypt(codec, env, payload, madeMs, visit.nowMs);
      var response := SessionAuthMiddleware(publicRoutes, request, codec, env, visit.nowMs);
      assert Receive(cookies, response) == cookies;
      assert AllProtected(publicRoutes, visits[1..]) by {
        forall i | 0 <= i < |visits[1..]| ensures visits[1..][i].pathname !in publicRoutes {
          assert visits[1..][i] == visits[i + 1];
        }
      }
      AsWrittenSessionNeverSlides(publicRoutes, origin, cookies, visits[1..], codec, env, payload, madeMs);
    }
  }

  /** With the renewal forwarded, a browser that comes back within the hour
      after each previous visit is never sent to `/login`: each visit gets a
      `next()` carrying a renewed session. */
  lemma {:induction false} ForwardedSessionSlides(publicRoutes: seq<string>, origin: string, cookies: map<string, string>,
                                                   visits: seq<Visit>, codec: Codec, env: Env, payload: Claims, madeMs: int)
    requires Lawful(codec)
    requires SESSION in cookies && cookies[SESSION] == Encrypt(codec, env, payload, madeMs)
    requires AllProtected(publicRoutes, visits)
    requires Paced(EpochSeconds(madeMs), visits, SESSION_EXPIRY)
    ensures forall i | 0 <= i < |visits| ::
              var response := BrowseSession(publicRoutes, origin, cookies, visits, codec, env, true)[i];
              response.Next? && SESSION in response.setCookies
    decreases |visits|
  {
    if visits != [] {
      var visit := visits[0];
      var request := Request(VisitUrl(origin, visit), cookies);
      DecryptInvertsEncrypt(codec, env, payload, madeMs, visit.nowMs);
      var renewed := Renewed(payload, visit.nowMs);
      var response := SessionAuthMiddlewareForwarding(publicRoutes, request, codec, env, visit.nowMs);
      assert response == Next(map[SESSION := Cookie(Encrypt(codec, env, renewed, visit.nowMs), SessionCookieOptions(visit.nowMs + ONE_HOUR_MS))]);
      var next := Receive(cookies, response);
      assert next[SESSION] == Encrypt(codec, env, renewed, visit.nowMs);
      assert AllProtected(publicRoutes, visits[1..]) by {
        forall i | 0 <= i < |visits[1..]| ensures visits[1..][i].pathname !in publicRoutes {
          assert visits[1..][i] == visits[i + 1];
        }
      }
      ForwardedSessionSlides(publicRoutes, origin, next, visits[1..], codec, env, renewed, visit.nowMs);
    }
  }

  /** The input that shows the difference: a session made at time 0, and
      visits to a protected page at 30 and at 60 minutes. As written the second
      visit is sent to `/login`; with the renewal forwarded it goes through. */
  lemma RenewalDroppedWitness(publicRoutes: seq<string>, origin: string, codec: Codec, env: Env, email: string)
    requires Lawful(codec)
    requires "/profile" !in publicRoutes
    ensures var cookies := map[SESSION := Encrypt(codec, env, SessionPayload(email, 0), 0)];
            var visits := [Visit("/profile", 1800000), Visit("/profile", 3600000)];
            && BrowseSession(publicRoutes, origin, cookies, visits, codec, env, false) == [Proceed, Redirect(Url(origin, "/login", ""))]
            && BrowseSession(publicRoutes, origin, cookies, visits, codec, env, true)[1].Next?
  {
    var cookies := map[SESSION := Encrypt(codec, env, SessionPayload(email, 0), 0)];
    var visits := [Visit("/profile", 1800000), Visit("/profile", 3600000)];
    assert EpochSeconds(0) == 0 && EpochSeconds(1800000) == 1800 && EpochSeconds(3600000) == 3600;
    AsWrittenSessionNeverSlides(publicRoutes, origin, cookies, visits, codec, env, SessionPayload(email, 0), 0);
    assert Paced(EpochSeconds(0), visits, SESSION_EXPIRY) by {
      assert visits[1..] == [Visit("/profile", 3600000)];
      assert visits[1..][1..] == [];
    }
    ForwardedSessionSlides(publicRoutes, origin, cookies, visits, codec, env, SessionPayload(email, 0), 0);
  }
}
