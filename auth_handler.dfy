/**
 * `AuthHandler`: register, login and the current-user lookup. `login` stores
 * the signed token in the response's cookie jar; the jar is a class whose
 * map the handler updates in place.
 */
module AuthHandlers {
  import opened Common
  import opened ApiResponses
  import opened BaseHandlers
  import opened UserStore
  import opened AuthServices
  import opened TokenGate

  const CredentialsRequired := Status(400, "Email and password are required")
  /** `maxAge: 60 * 60 * 24`, one day in seconds. */
  const TokenMaxAge := 60 * 60 * 24

  /** `const { email, password, role } = body`; a missing role is `None`. */
  datatype RegisterBody = RegisterBody(email: Field, password: Field, role: Option<Role>)

  /** `const { email, password } = body` */
  datatype LoginBody = LoginBody(email: Field, password: Field)

  /** The options the token cookie is set with. */
  datatype CookieOptions = CookieOptions(httpOnly: bool, secure: bool, sameSite: string, maxAge: int, path: string)

  datatype Cookie = Cookie(value: string, options: CookieOptions)

  /** `if (!email || !password) throw { 400, 'Email and password are required' }` */
  function Credentials(email: Field, password: Field): (r: Result<(string, string)>)
    ensures r.Ok? <==> email.Truthy() && password.Truthy()
    ensures r.Err? ==> r.error == CredentialsRequired
    ensures r.Ok? ==> r.value == (email.text, password.text)
  {
    if !email.Truthy() || !password.Truthy() then Err(CredentialsRequired)
    else Ok((email.text, password.text))
  }

  /** The options `login` sets on the token cookie; `production` is `NODE_ENV === 'production'`. */
  function TokenCookieOptions(production: bool): (o: CookieOptions)
    ensures o.httpOnly && o.sameSite == "strict" && o.path == "/"
    ensures o.secure <==> production
    ensures o.maxAge == 86400
  {
    CookieOptions(true, production, "strict", TokenMaxAge, "/")
  }

  /** The cookies a response sets, by name. */
  class CookieJar {
    var cookies: map<string, Cookie>

    constructor ()
      ensures cookies == map[]
    {
      cookies := map[];
    }

    /** `cookies().set(name, value, options)`: replaces any cookie of that name. */
    method Set(name: string, value: string, options: CookieOptions)
      modifies this
      ensures cookies == old(cookies)[name := Cookie(value, options)]
    {
      cookies := cookies[name := Cookie(value, options)];
    }
  }

  class AuthHandler {
    const authService: AuthService

    constructor (authService: AuthService)
      ensures this.authService == authService
    {
      this.authService := authService;
    }

    /** `register(req)`: no identity needed; 400 before the service without credentials. */
    method Register(req: Request<RegisterBody>, hash: string -> string, newId: string, timestamp: string)
      returns (resp: HttpResponse<SafeUser>)
      requires authService.userRepo.Valid() && authService.userRepo.FindById(newId).None?
      modifies authService.userRepo
      ensures authService.userRepo.Valid()
      ensures Credentials(req.body.email, req.body.password).Err? ==>
                && resp == HandleWrapper(Err(CredentialsRequired), timestamp)
                && authService.userRepo.rows == old(authService.userRepo.rows)
      ensures Credentials(req.body.email, req.body.password).Ok? ==>
                var (email, password) := Credentials(req.body.email, req.body.password).value;
                && (old(authService.userRepo.FindByEmail(email)).Some? ==>
                      && resp == HandleWrapper(Err(UserAlreadyExists), timestamp)
                      && authService.userRepo.rows == old(authService.userRepo.rows))
                && (old(authService.userRepo.FindByEmail(email)).None? ==>
                      var stored := User(newId, email, None, hash(password), req.body.role.GetOr(CLIENT));
                      && resp == HandleWrapper(Ok(Strip(stored)), timestamp)
                      && authService.userRepo.rows == old(authService.userRepo.rows) + [stored])
    {
      var creds := Credentials(req.body.email, req.body.password);
      if creds.Err? {
        return HandleWrapper(Err(creds.error), timestamp);
      }
      var (email, password) := creds.value;
      var r := authService.Register(email, password, req.body.role, hash, newId);
      resp := HandleWrapper(r, timestamp);
    }

    /**
     * `login(req)`: on success the token goes into the `token` cookie and
     * only the safe user goes into the body; on failure no cookie is set.
     */
    method Login(req: Request<LoginBody>, compare: (string, string) -> bool, generateToken: TokenClaims -> string,
                    production: bool, jar: CookieJar, timestamp: string) returns (resp: HttpResponse<SafeUser>)
      modifies jar
      ensures Credentials(req.body.email, req.body.password).Err? ==>
                && resp == HandleWrapper(Err(CredentialsRequired), timestamp)
                && jar.cookies == old(jar.cookies)
      ensures Credentials(req.body.email, req.body.password).Ok? ==>
                var (email, password) := Credentials(req.body.email, req.body.password).value;
                match authService.Login(email, password, compare, generateToken)
                case Err(e) => && resp == HandleWrapper(Err(e), timestamp)
                               && jar.cookies == old(jar.cookies)
                case Ok(result) => && resp == HandleWrapper(Ok(result.user), timestamp)
                                   && jar.cookies == old(jar.cookies)[TokenCookie := Cookie(result.token, TokenCookieOptions(production))]
    {
      var creds := Credentials(req.body.email, req.body.password);
      if creds.Err? {
        return HandleWrapper(Err(creds.error), timestamp);
      }
      var (email, password) := creds.value;
      var r := authService.Login(email, password, compare, generateToken);
      if r.Err? {
        return HandleWrapper(Err(r.error), timestamp);
      }
      jar.Set(TokenCookie, r.value.token, TokenCookieOptions(production));
      resp := HandleWrapper(Ok(r.value.user), timestamp);
    }

    /** `getMe(req)`: the profile of the identity the edge middleware verified. */
    function GetMe<B>(req: Request<B>, timestamp: string): (resp: HttpResponse<SafeUser>)
      reads authService.userRepo
      ensures RequireUserId(req).Err? ==> resp == HandleWrapper(Err(Unauthorized), timestamp)
      ensures RequireUserId(req).Ok? ==>
                var found := authService.userRepo.FindById(RequireUserId(req).value);
                && (found.None? ==> resp.status == 404 && !resp.body.Success())
                && (found.Some? ==> resp.status == 200 && resp.body.Success() && resp.body.data == Strip(found.value))
    {
      match RequireUserId(req)
      case Err(e) => HandleWrapper(Err(e), timestamp)
      case Ok(userId) => HandleWrapper(authService.GetUserProfile(userId), timestamp)
    }
  }

  /** A failed login never answers 200 and never reveals which half of the credentials was wrong. */
  lemma LoginFailureIsUniform(service: AuthService, email: string, password: string,
                              compare: (string, string) -> bool, generateToken: TokenClaims -> string, timestamp: string)
    requires service.Login(email, password, compare, generateToken).Err?
    ensures HandleWrapper<SafeUser>(Err(service.Login(email, password, compare, generateToken).error), timestamp)
            == HttpResponse(401, ErrorEnvelope("Invalid credentials", 401, None, timestamp))
  {
  }
}
