/**
 * The sign-in flow across the layers: register an account, log in with the
 * same credentials, then ask `/api/auth/me` with nothing but the cookie the
 * login set. The edge middleware turns the cookie into `x-user-id`, and the
 * handler answers with the account just created, with the default role.
 */
module SignInFlow {
  import opened Common
  import opened ApiResponses
  import opened BaseHandlers
  import opened Tables
  import opened UserStore
  import opened AuthServices
  import opened TokenGate
  import opened EdgeMiddleware
  import opened AuthHandlers

  const MePath := "/api/auth/me"

  /** How a role is written in a token's claims. */
  function RoleName(role: Role): (s: string)
    ensures s == "CLIENT" <==> role == CLIENT
    ensures s == "ADMIN" <==> role == ADMIN
  {
    match role
    case CLIENT => "CLIENT"
    case ADMIN => "ADMIN"
  }

  /** The cookies a browser sends back: the value of each cookie the jar holds. */
  function CookieValues(cookies: map<string, Cookie>): (m: map<string, string>)
    ensures m.Keys == cookies.Keys
    ensures forall k :: k in cookies ==> m[k] == cookies[k].value
  {
    map k | k in cookies :: cookies[k].value
  }

  /**
   * `compare` accepts a password against its own hash, `generateToken`
   * never signs an empty token, and `verifyToken` gives back the claims of
   * any token `generateToken` signed.
   */
  method RegisterLoginMe(handler: AuthHandler, email: string, password: string, hash: string -> string,
                         compare: (string, string) -> bool, generateToken: TokenClaims -> string,
                         verifyToken: string -> Option<Payload>, newId: string, timestamp: string)
    returns (registered: HttpResponse<SafeUser>, loggedIn: HttpResponse<SafeUser>, me: HttpResponse<SafeUser>)
    requires handler.authService.userRepo.Valid()
    requires handler.authService.userRepo.FindById(newId).None?
    requires handler.authService.userRepo.FindByEmail(email).None?
    requires email != "" && password != "" && newId != ""
    requires compare(password, hash(password))
    requires forall c :: generateToken(c) != ""
    requires forall c :: verifyToken(generateToken(c)) == Some(Payload(c.id, c.email, RoleName(c.role)))
    modifies handler.authService.userRepo
    ensures handler.authService.userRepo.Valid()
    ensures registered == HandleWrapper(Ok(SafeUser(newId, email, None, CLIENT)), timestamp)
    ensures loggedIn == HandleWrapper(Ok(SafeUser(newId, email, None, CLIENT)), timestamp)
    ensures me.status == 200 && me.body.Success() && me.body.data == SafeUser(newId, email, None, CLIENT)
  {
    var register := Request("/api/auth/register", map[], map[], RegisterBody(Str(email), Str(password), None));
    registered := handler.Register(register, hash, newId, timestamp);
    var stored := User(newId, email, None, hash(password), CLIENT);
    FindsAppended(old(handler.authService.userRepo.rows), stored, handler.authService.userRepo);

    var jar := new CookieJar();
    var login := Request("/api/auth/login", map[], map[], LoginBody(Str(email), Str(password)));
    loggedIn := handler.Login(login, compare, generateToken, false, jar, timestamp);
    var claims := TokenClaims(newId, email, CLIENT);

    var forwarded := ThroughEdge(jar.cookies, claims, generateToken, verifyToken);
    me := handler.GetMe(forwarded, timestamp);
  }

  /**
   * A request to `/api/auth/me` carrying the cookies of `jar`, whose `token`
   * cookie holds a token signed over `claims`, leaves the edge middleware
   * forwarded with `x-user-id` set to the claims' id.
   */
  function ThroughEdge(jar: map<string, Cookie>, claims: TokenClaims, generateToken: TokenClaims -> string,
                       verifyToken: string -> Option<Payload>): (forwarded: Request<()>)
    requires TokenCookie in jar && jar[TokenCookie].value == generateToken(claims)
    requires claims.id != "" && generateToken(claims) != ""
    requires verifyToken(generateToken(claims)) == Some(Payload(claims.id, claims.email, RoleName(claims.role)))
    ensures RequireUserId(forwarded) == Ok(claims.id)
    ensures var ask := Request(MePath, CookieValues(jar), map[], ());
            && Gate(ask, verifyToken) == Some(Forward(forwarded.headers))
            && forwarded == ask.(headers := forwarded.headers)
  {
    var ask := Request(MePath, CookieValues(jar), map[], ());
    assert TokenOf(ask) == Some(generateToken(claims));
    MatcherMe();
    var edge := Middleware(ask, verifyToken);
    ask.(headers := edge.headers)
  }

  /** `/api/auth/me` is a gated path. */
  lemma MatcherMe()
    ensures Gated(MePath)
  {
  }

  /** A row appended under a fresh id and a fresh e-mail is what both lookups find. */
  lemma FindsAppended(before: seq<User>, u: User, repo: UserRepository)
    requires repo.rows == before + [u]
    requires repo.Valid()
    ensures repo.FindByEmail(u.email) == Some(u)
    ensures repo.FindById(u.id) == Some(u)
  {
    assert repo.rows[|before|] == u;
    FindByFindsRow(repo.rows, UserEmail, |before|);
    FindByFindsRow(repo.rows, UserId, |before|);
  }
}
