/**
 * `UserService`: profile lookup and profile update. `PasswordHasher.hash` is
 * opaque and passed in as a function.
 */
module UserServices {
  import opened Common
  import opened UserStore

  const UserNotFound := Status(404, "User not found")
  const NoValidFields := Status(400, "No valid fields to update")

  /**
   * `ProfileUpdateData { name?, password? }` as the handler passes it on:
   * each field may be missing, `null` or a string.
   */
  datatype ProfileUpdateData = ProfileUpdateData(name: Field, password: Field)

  /**
   * The `updateData` record `updateProfile` assembles: `name` whenever
   * `data.name !== undefined` (so `null` and `''` count), `passwordHash`
   * whenever `data.password` is truthy.
   */
  function BuildUpdate(data: ProfileUpdateData, hash: string -> string): (u: UserUpdate)
    ensures u.name.Some? <==> data.name != Undefined
    ensures data.name == Null ==> u.name == Some(None)
    ensures data.name.Str? ==> u.name == Some(Some(data.name.text))
    ensures u.passwordHash.Some? <==> data.password.Truthy()
    ensures u.passwordHash.Some? ==> u.passwordHash.value == hash(data.password.text)
  {
    var name := match data.name
                case Undefined => None
                case Null => Some(None)
                case Str(s) => Some(Some(s));
    var passwordHash := if data.password.Truthy() then Some(hash(data.password.text)) else None;
    UserUpdate(name, passwordHash)
  }

  /** `Object.keys(updateData).length === 0` */
  predicate IsEmpty(u: UserUpdate) {
    u.name.None? && u.passwordHash.None?
  }

  class UserService {
    const userRepo: UserRepository

    constructor (userRepo: UserRepository)
      ensures this.userRepo == userRepo
    {
      this.userRepo := userRepo;
    }

    /** `getProfile(userId)` */
    function GetProfile(userId: string): (r: Result<SafeUser>)
      reads userRepo
      ensures r.Err? <==> userRepo.FindById(userId).None?
      ensures r.Err? ==> r.error == UserNotFound
      ensures r.Ok? ==> r.value == Strip(userRepo.FindById(userId).value)
    {
      var found := userRepo.FindById(userId);
      if found.None? then Err(UserNotFound) else Ok(Strip(found.value))
    }

    /**
     * `updateProfile(userId, data)`: 404 for an unknown user before anything
     * is built, 400 when no field qualifies, otherwise only `name` and/or
     * `passwordHash` of that user change.
     */
    method UpdateProfile(userId: string, data: ProfileUpdateData, hash: string -> string) returns (r: Result<SafeUser>)
      requires userRepo.Valid()
      modifies userRepo
      ensures userRepo.Valid()
      ensures old(userRepo.FindById(userId)).None? ==> r == Err(UserNotFound)
      ensures old(userRepo.FindById(userId)).Some? && IsEmpty(BuildUpdate(data, hash)) ==> r == Err(NoValidFields)
      ensures r.Ok? <==> old(userRepo.FindById(userId)).Some? && !IsEmpty(BuildUpdate(data, hash))
      ensures r.Err? ==> userRepo.rows == old(userRepo.rows)
      ensures r.Ok? ==> && old(userRepo.FindById(userId)).Some?
                        && !IsEmpty(BuildUpdate(data, hash))
                        && var updated := ApplyUserUpdate(old(userRepo.FindById(userId)).value, BuildUpdate(data, hash));
                           && userRepo.FindById(userId) == Some(updated)
                           && r.value == Strip(updated)
      ensures r.Ok? ==> forall other :: other != userId ==> userRepo.FindById(other) == old(userRepo.FindById(other))
    {
      var found := userRepo.FindById(userId);
      if found.None? {
        return Err(UserNotFound);
      }
      var update := BuildUpdate(data, hash);
      if IsEmpty(update) {
        return Err(NoValidFields);
      }
      var updated := userRepo.Update(userId, update);
      r := Ok(Strip(updated));
    }
  }
}
