/**
 * `UserHandler`: the request checks in front of `UserService`. The handler
 * demands a non-empty `name` or a non-empty `password`, and a password of at
 * least six characters, before the service sees the data.
 */
module UserHandlers {
  import opened Common
  import opened BaseHandlers
  import opened UserStore
  import opened UserServices

  const FieldRequired := Status(400, "At least one field (name or password) is required")
  const PasswordTooShort := Status(400, "Password must be at least 6 characters")
  const MinPasswordLength := 6

  /** `const { name, password } = body` */
  datatype ProfileBody = ProfileBody(name: Field, password: Field)

  /** The checks of `updateProfile`, and on success the arguments of the service call. */
  function ProfileArgs(req: Request<ProfileBody>): (r: Result<(string, ProfileUpdateData)>)
    ensures RequireUserId(req).Err? ==> r == Err(Unauthorized)
    ensures (&& RequireUserId(req).Ok?
             && !req.body.name.Truthy() && !req.body.password.Truthy()) ==> r == Err(FieldRequired)
    ensures (&& RequireUserId(req).Ok? && (req.body.name.Truthy() || req.body.password.Truthy())
             && req.body.password.Truthy() && |req.body.password.text| < MinPasswordLength) ==> r == Err(PasswordTooShort)
    ensures r.Ok? <==> && RequireUserId(req).Ok?
                       && (req.body.name.Truthy() || req.body.password.Truthy())
                       && (req.body.password.Truthy() ==> |req.body.password.text| >= MinPasswordLength)
    ensures r.Ok? ==> r.value == (RequireUserId(req).value, ProfileUpdateData(req.body.name, req.body.password))
  {
    match RequireUserId(req)
    case Err(e) => Err(e)
    case Ok(userId) =>
      var body := req.body;
      if !body.name.Truthy() && !body.password.Truthy() then Err(FieldRequired)
      else if body.password.Truthy() && |body.password.text| < MinPasswordLength then Err(PasswordTooShort)
      else Ok((userId, ProfileUpdateData(body.name, body.password)))
  }

  /**
   * The handler's checks are stricter than the service's: whatever `data`
   * gets through them, the service builds a non-empty update, so its
   * "No valid fields to update" answer cannot be reached through this route.
   */
  lemma HandlerChecksCoverService(req: Request<ProfileBody>, hash: string -> string)
    requires ProfileArgs(req).Ok?
    ensures !IsEmpty(BuildUpdate(ProfileArgs(req).value.1, hash))
    ensures var u := BuildUpdate(ProfileArgs(req).value.1, hash);
            u.passwordHash.Some? ==> |req.body.password.text| >= MinPasswordLength
  {
  }

  class UserHandler {
    const userService: UserService

    constructor (userService: UserService)
      ensures this.userService == userService
    {
      this.userService := userService;
    }

    /** `getProfile(req)`: the caller's own profile, without its password hash. */
    function GetProfile<B>(req: Request<B>, timestamp: string): (resp: HttpResponse<SafeUser>)
      reads userService.userRepo
      ensures RequireUserId(req).Err? ==> resp == HandleWrapper(Err(Unauthorized), timestamp)
      ensures RequireUserId(req).Ok? ==>
                var found := userService.userRepo.FindById(RequireUserId(req).value);
                && (found.None? ==> resp.status == 404 && !resp.body.Success())
                && (found.Some? ==> resp.status == 200 && resp.body.Success() && resp.body.data == Strip(found.value))
    {
      match RequireUserId(req)
      case Err(e) => HandleWrapper(Err(e), timestamp)
      case Ok(userId) => HandleWrapper(userService.GetProfile(userId), timestamp)
    }

    /** `updateProfile(req)` */
    method UpdateProfile(req: Request<ProfileBody>, hash: string -> string, timestamp: string) returns (resp: HttpResponse<SafeUser>)
      requires userService.userRepo.Valid()
      modifies userService.userRepo
      ensures userService.userRepo.Valid()
      ensures ProfileArgs(req).Err? ==> && resp == HandleWrapper(Err(ProfileArgs(req).error), timestamp)
                                        && userService.userRepo.rows == old(userService.userRepo.rows)
      ensures ProfileArgs(req).Ok? ==>
                var userId := RequireUserId(req).value;
                var found := old(userService.userRepo.FindById(userId));
                && (found.None? ==> && resp == HandleWrapper(Err(UserNotFound), timestamp)
                                    && userService.userRepo.rows == old(userService.userRepo.rows))
                && (found.Some? ==>
                      var updated := ApplyUserUpdate(found.value, BuildUpdate(ProfileUpdateData(req.body.name, req.body.password), hash));
                      && resp == HandleWrapper(Ok(Strip(updated)), timestamp)
                      && userService.userRepo.FindById(userId) == Some(updated))
      ensures ProfileArgs(req).Ok? ==>
                forall other :: other != RequireUserId(req).value ==>
                  userService.userRepo.FindById(other) == old(userService.userRepo.FindById(other))
    {
      var args := ProfileArgs(req);
      if args.Err? {
        return HandleWrapper(Err(args.error), timestamp);
      }
      HandlerChecksCoverService(req, hash);
      var (userId, data) := args.value;
      var r := userService.UpdateProfile(userId, data, hash);
      resp := HandleWrapper(r, timestamp);
    }
  }
}
