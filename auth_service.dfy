/**
 * `AuthService`: registration, login and profile lookup over the user table.
 * `PasswordHasher.hash`, `PasswordHasher.compare` and
 * `JwtService.generateToken` are opaque and passed in as functions; the
 * welcome e-mail that `register` fires and forgets is not modelled, since its
 * failure is caught and cannot change the outcome.
 */
module AuthServices {
  import opened Common
  import opened UserStore

  const UserAlreadyExists := Status(400, "User already exists")
  const InvalidCredentials := Status(401, "Invalid credentials")
  const UserNotFound := Status(404, "User not found")

  /** The claims `login` signs: `{ id, email, role }`. */
  datatype TokenClaims = TokenClaims(id: string, email: string, role: Role)

  /** `LoginResult` */
  datatype LoginResult = LoginResult(user: SafeUser, token: string)

  class AuthService {
    const userRepo: UserRepository

    constructor (userRepo: UserRepository)
      ensures this.userRepo == userRepo
    {
      this.userRepo := userRepo;
    }

    /**
     * `register(email, password, role = 'CLIENT')`. `hash` is the salted hash
     * this call computes; `newId` is the id the database assigns.
     */
    method Register(email: string, password: string, role: Option<Role>, hash: string -> string, newId: string)
      returns (r: Result<SafeUser>)
      requires userRepo.Valid() && userRepo.FindById(newId).None?
      modifies userRepo
      ensures userRepo.Valid()
      ensures r == Err(UserAlreadyExists) <==> old(userRepo.FindByEmail(email)).Some?
      ensures r.Err? ==> r == Err(UserAlreadyExists) && userRepo.rows == old(userRepo.rows)
      ensures r.Ok? ==> var stored := User(newId, email, None, hash(password), role.GetOr(CLIENT));
                        && userRepo.rows == old(userRepo.rows) + [stored]
                        && r.value == Strip(stored)
      ensures r.Ok? ==> r.value.role == (if role.Some? then role.value else CLIENT)
    {
      if userRepo.FindByEmail(email).Some? {
        return Err(UserAlreadyExists);
      }
      var passwordHash := hash(password);
      var user := userRepo.Create(email, passwordHash, role.GetOr(CLIENT), newId);
      r := Ok(Strip(user));
    }

    /**
     * `login(email, password)`: an unknown e-mail and a wrong password fail
     * with the same error; it only reads the table.
     */
    function Login(email: string, password: string, compare: (string, string) -> bool,
                   generateToken: TokenClaims -> string): (r: Result<LoginResult>)
      reads userRepo
      ensures r.Err? ==> r.error == InvalidCredentials
      ensures r.Ok? <==> userRepo.FindByEmail(email).Some? && compare(password, userRepo.FindByEmail(email).value.passwordHash)
      ensures r.Ok? ==> var u := userRepo.FindByEmail(email).value;
                        && r.value.user == Strip(u)
                        && r.value.token == generateToken(TokenClaims(u.id, u.email, u.role))
    {
      var found := userRepo.FindByEmail(email);
      if found.None? then Err(InvalidCredentials)
      else if !compare(password, found.value.passwordHash) then Err(InvalidCredentials)
      else
        var u := found.value;
        Ok(LoginResult(Strip(u), generateToken(TokenClaims(u.id, u.email, u.role))))
    }

    /** `getUserProfile(userId)` */
    function GetUserProfile(userId: string): (r: Result<SafeUser>)
      reads userRepo
      ensures r.Err? <==> userRepo.FindById(userId).None?
      ensures r.Err? ==> r.error == UserNotFound
      ensures r.Ok? ==> r.value == Strip(userRepo.FindById(userId).value)
    {
      var found := userRepo.FindById(userId);
      if found.None? then Err(UserNotFound) else Ok(Strip(found.value))
    }
  }

  /**
   * Login failures do not reveal whether the e-mail exists: an unknown
   * e-mail, and a known one with the wrong password, give the same result.
   */
  lemma NoUserExistenceOracle(service: AuthService, email: string, email': string, password: string,
                              compare: (string, string) -> bool, generateToken: TokenClaims -> string)
    requires service.userRepo.FindByEmail(email).None?
    requires service.userRepo.FindByEmail(email').Some?
    requires !compare(password, service.userRepo.FindByEmail(email').value.passwordHash)
    ensures service.Login(email, password, compare, generateToken) == service.Login(email', password, compare, generateToken)
  {
  }

  /**
   * Whoever registered an e-mail with a password can log in with it again,
   * provided `compare` accepts a password against its own hash; the token is
   * signed over the new account's id, e-mail and the role it was given.
   */
  lemma RegisteredUserCanLogIn(service: AuthService, email: string, password: string, role: Role,
                               hash: string -> string, compare: (string, string) -> bool,
                               generateToken: TokenClaims -> string, newId: string)
    requires service.userRepo.Valid()
    requires service.userRepo.FindByEmail(email) == Some(User(newId, email, None, hash(password), role))
    requires compare(password, hash(password))
    ensures service.Login(email, password, compare, generateToken)
            == Ok(LoginResult(SafeUser(newId, email, None, role), generateToken(TokenClaims(newId, email, role))))
  {
  }
}
