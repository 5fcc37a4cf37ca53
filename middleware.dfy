/**
 * The edge `middleware` and its `config.matcher`: every request to a gated
 * path is either forwarded with the verified identity in its headers, or
 * refused with a 401 JSON body (API paths) or a redirect to `/login`.
 */
module EdgeMiddleware {
  import opened Common
  import opened TokenGate

  const UserRoleHeader := "x-user-role"
  const LoginPath := "/login"

  /** What `middleware` returns. */
  datatype Outcome =
    | Forward(headers: map<string, string>)                   // NextResponse.next({ request: { headers } })
    | JsonUnauthorized(status: int, success: bool, message: string) // NextResponse.json({ success: false, message }, { status: 401 })
    | Redirect(location: string)                               // NextResponse.redirect(new URL('/login', req.url))

  /** `new Headers(req.headers)` with `x-user-id` and `x-user-role` set from the payload. */
  function IdentityHeaders(headers: map<string, string>, payload: Payload): (h: map<string, string>)
    ensures h.Keys == headers.Keys + {UserIdHeader, UserRoleHeader}
    ensures h[UserIdHeader] == payload.id && h[UserRoleHeader] == payload.role
    ensures forall k :: k in headers && k != UserIdHeader && k != UserRoleHeader ==> h[k] == headers[k]
  {
    headers[UserIdHeader := payload.id][UserRoleHeader := payload.role]
  }

  function Middleware<B>(req: Request<B>, verifyToken: string -> Option<Payload>): (o: Outcome)
    ensures o.Forward? <==> Verify(req, verifyToken).Ok?
    ensures o.Forward? ==> o.headers == IdentityHeaders(req.headers, Verify(req, verifyToken).value)
    ensures o.JsonUnauthorized? <==> Verify(req, verifyToken).Err? && StartsWith(req.path, "/api/")
    ensures o.JsonUnauthorized? ==> o == JsonUnauthorized(401, false, "Unauthorized")
    ensures o.Redirect? <==> Verify(req, verifyToken).Err? && !StartsWith(req.path, "/api/")
    ensures o.Redirect? ==> o.location == LoginPath
  {
    match Verify(req, verifyToken)
    case Ok(user) => Forward(IdentityHeaders(req.headers, user))
    case Err(_) =>
      if StartsWith(req.path, "/api/") then JsonUnauthorized(401, false, "Unauthorized")
      else Redirect(LoginPath)
  }

  /** A `:path*` matcher entry: the prefix itself, or the prefix followed by `/` and anything. */
  predicate MatchesPrefix(path: string, prefix: string) {
    path == prefix || StartsWith(path, prefix + "/")
  }

  /** `config.matcher`: the paths `middleware` runs on. */
  predicate Gated(path: string) {
    || MatchesPrefix(path, "/dashboard")
    || MatchesPrefix(path, "/profile")
    || MatchesPrefix(path, "/api/issues")
    || MatchesPrefix(path, "/api/users/profile")
    || path == "/api/auth/me"
  }

  /** What the edge does with a request: nothing on ungated paths, else `middleware`. */
  function Gate<B>(req: Request<B>, verifyToken: string -> Option<Payload>): (o: Option<Outcome>)
    ensures o.None? <==> !Gated(req.path)
    ensures o.Some? ==> o.value == Middleware(req, verifyToken)
  {
    if Gated(req.path) then Some(Middleware(req, verifyToken)) else None
  }

  /**
   * A client cannot choose its own identity on a gated path: whatever
   * `x-user-id`/`x-user-role` it sends, a forwarded request carries the
   * verified payload's, and every other header is passed on as sent.
   */
  lemma ForwardedIdentityIsVerified<B>(req: Request<B>, verifyToken: string -> Option<Payload>, k: string)
    requires Gated(req.path)
    requires Gate(req, verifyToken).value.Forward?
    ensures var p := Verify(req, verifyToken).value;
            var h := Gate(req, verifyToken).value.headers;
            && TokenOf(req).Some? && verifyToken(TokenOf(req).value) == Some(p)
            && h[UserIdHeader] == p.id && h[UserRoleHeader] == p.role
            && (k != UserIdHeader && k != UserRoleHeader ==> (k in h <==> k in req.headers) && (k in req.headers ==> h[k] == req.headers[k]))
  {
  }

  /** The protected routes are gated; the login and register endpoints, and look-alike paths, are not. */
  lemma MatcherExamples()
    ensures Gated("/dashboard") && Gated("/dashboard/settings") && Gated("/profile")
    ensures Gated("/api/issues") && Gated("/api/issues/abc") && Gated("/api/users/profile") && Gated("/api/auth/me")
    ensures !Gated("/api/auth/login") && !Gated("/dashboards")
  {
    assert "/dashboard/settings"[..|"/dashboard/"|] == "/dashboard/";
    assert "/api/issues/abc"[..|"/api/issues/"|] == "/api/issues/";
    var login := "/api/auth/login";
    assert login[1] != "/dashboard/"[1] && login[1] != "/profile/"[1];
    assert login[5] != "/api/issues/"[5] && login[5] != "/api/users/profile/"[5];
    var dashboards := "/dashboards";
    assert dashboards[10] != "/dashboard/"[10];
    assert dashboards[1] != "/profile/"[1] && dashboards[1] != "/api/issues/"[1] && dashboards[1] != "/api/users/profile/"[1];
  }
}
