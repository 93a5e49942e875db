/** The slice of the web framework that the auth layer touches: request URLs
    and cookies, response cookies with their attributes, the three kinds of
    response a middleware or route handler returns, and the per-request
    cookie store behind `cookies()`. */
module Http {
  import opened Wrappers

  /** An absolute URL, reduced to the parts the auth layer looks at. */
  datatype Url = Url(origin: string, pathname: string, search: string)

  /** An incoming request: its URL and the cookies it carries (name to value). */
  datatype Request = Request(url: Url, cookies: map<string, string>)

  datatype SameSite = Strict | Lax | NoRestriction

  /** The attributes of a `Set-Cookie`. Every field is optional, as in
      `Partial<ResponseCookie>`; `maxAge` is in seconds and `expires` in epoch
      milliseconds. */
  datatype CookieOptions = CookieOptions(
    httpOnly: Option<bool>,
    secure: Option<bool>,
    sameSite: Option<SameSite>,
    path: Option<string>,
    maxAge: Option<int>,
    expires: Option<int>)

  const NoOptions := CookieOptions(None, None, None, None, None, None)

  /** A cookie as the store holds it: its value and the attributes it was set with. */
  datatype Cookie = Cookie(value: string, options: CookieOptions)

  /** The JSON bodies the handlers return: `{ error: message }` or `{ success: true }`. */
  datatype Body = ErrorBody(message: string) | SuccessBody

  datatype Response =
    | Next(setCookies: map<string, Cookie>)  // NextResponse.next(), with the cookies set on it
    | Redirect(location: Url)                // NextResponse.redirect(url)
    | Json(status: int, body: Body)          // NextResponse.json(body, { status })

  /** A bare `NextResponse.next()`. */
  const Proceed := Next(map[])

  /** `new URL(path, base)` for an absolute path: the base's origin, no query. */
  function RedirectTo(path: string, base: Url): Url {
    Url(base.origin, path, "")
  }

  /** `cookies.get(name)?.value` (also `formData.get(name)`). */
  function Lookup(entries: map<string, string>, name: string): Option<string> {
    if name in entries then Some(entries[name]) else None
  }

  /** JavaScript truthiness of an optional string: neither missing nor `''`. */
  predicate Truthy(v: Option<string>) {
    v.Some? && v.value != ""
  }

  /** A form submits a non-empty `email` and a non-empty `password`. */
  predicate HasEmailAndPassword(formData: map<string, string>) {
    Truthy(Lookup(formData, "email")) && Truthy(Lookup(formData, "password"))
  }

  /** The mutable cookie store returned by `cookies()`; writes accumulate,
      last write wins per name. */
  class CookieStore {
    var jar: map<string, Cookie>

    constructor (initial: map<string, Cookie>)
      ensures jar == initial
    {
      jar := initial;
    }

    /** `cookieStore.get(name)?.value` */
    function Get(name: string): (v: Option<string>)
      reads this
      ensures v.Some? <==> name in jar
      ensures v.Some? ==> v.value == jar[name].value
    {
      if name in jar then Some(jar[name].value) else None
    }

    /** `cookieStore.set(name, value, options)` */
    method Set(name: string, value: string, options: CookieOptions)
      modifies this
      ensures jar == old(jar)[name := Cookie(value, options)]
    {
      jar := jar[name := Cookie(value, options)];
    }

    /** `cookieStore.delete(name)`; deleting an absent cookie changes nothing. */
    method Delete(name: string)
      modifies this
      ensures jar == old(jar) - {name}
      ensures name !in old(jar) ==> jar == old(jar)
    {
      jar := jar - {name};
    }
  }
}
