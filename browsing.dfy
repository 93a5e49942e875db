/** A browser between requests: the cookies it holds, what it sends, and what
    it keeps from a response. Used to state properties of a run of visits. */
module Browsing {
  import opened Jose
  import opened Http

  /** A page visit: the path asked for and the clock (epoch milliseconds). */
  datatype Visit = Visit(pathname: string, nowMs: int)

  function VisitUrl(origin: string, visit: Visit): Url {
    Url(origin, visit.pathname, "")
  }

  /** Every visit comes less than `gap` seconds after the one before it, the
      first less than `gap` seconds after second `last`. */
  predicate Paced(last: int, visits: seq<Visit>, gap: int)
    decreases |visits|
  {
    visits == [] ||
    (EpochSeconds(visits[0].nowMs) < last + gap && Paced(EpochSeconds(visits[0].nowMs), visits[1..], gap))
  }

  /** The cookie store a request handler sees at its start: the request's
      cookies, with no attributes. */
  function Lift(cookies: map<string, string>): (jar: map<string, Cookie>)
    ensures jar.Keys == cookies.Keys
  {
    map name | name in cookies :: Cookie(cookies[name], NoOptions)
  }

  /** What a browser sends back on its next request: the values of the cookies it holds. */
  function Values(jar: map<string, Cookie>): (cookies: map<string, string>)
    ensures cookies.Keys == jar.Keys
  {
    map name | name in jar :: jar[name].value
  }

  lemma ValuesOfLift(cookies: map<string, string>)
    ensures Values(Lift(cookies)) == cookies
  {
  }

  /** The browser's cookies after it receives `response`: a `Next` response
      carries `Set-Cookie` headers, the other two kinds do not. */
  function Receive(cookies: map<string, string>, response: Response): map<string, string> {
    if response.Next? then cookies + Values(response.setCookies) else cookies
  }
}
