/**
 * The `User` table behind `UserRepository`, and the password-free view of a
 * user (`SafeUser`) that services return. The table is an in-memory table of
 * rows with unique ids and unique e-mail addresses (compared exactly, case
 * included); the id the database generates for a new row is a parameter.
 */
module UserStore {
  import opened Common
  import opened Tables

  datatype Role = CLIENT | ADMIN

  /** A row of the `User` table. */
  datatype User = User(id: string, email: string, name: Option<string>, passwordHash: string, role: Role)

  /** `SafeUser = Omit<User, 'passwordHash'>` */
  datatype SafeUser = SafeUser(id: string, email: string, name: Option<string>, role: Role)

  function UserId(u: User): string { u.id }
  function UserEmail(u: User): string { u.email }

  /** `const { passwordHash: _, ...safeUser } = user` */
  function Strip(u: User): (s: SafeUser)
    ensures s.id == u.id && s.email == u.email && s.name == u.name && s.role == u.role
  {
    SafeUser(u.id, u.email, u.name, u.role)
  }

  /** Stripping forgets the password hash and nothing else. */
  lemma StripForgetsOnlyHash(u: User, v: User)
    ensures Strip(u) == Strip(v) <==> u == v.(passwordHash := u.passwordHash)
  {
  }

  /**
   * The data `userRepo.update` writes: `name` when present (possibly `null`),
   * `passwordHash` when present.
   */
  datatype UserUpdate = UserUpdate(name: Option<Option<string>>, passwordHash: Option<string>)

  function ApplyUserUpdate(u: User, data: UserUpdate): (r: User)
    ensures r.id == u.id && r.email == u.email && r.role == u.role
    ensures r.name == data.name.GetOr(u.name)
    ensures r.passwordHash == data.passwordHash.GetOr(u.passwordHash)
  {
    u.(name := data.name.GetOr(u.name), passwordHash := data.passwordHash.GetOr(u.passwordHash))
  }

  class UserRepository {
    /** The `User` table. */
    var rows: seq<User>

    ghost predicate Valid()
      reads this
    {
      Unique(rows, UserId) && Unique(rows, UserEmail)
    }

    constructor ()
      ensures Valid() && rows == []
    {
      rows := [];
    }

    /** `findById(id)` */
    function FindById(id: string): (r: Option<User>)
      reads this
      ensures r.Some? ==> r.value.id == id && r.value in rows
      ensures r.None? <==> forall i :: 0 <= i < |rows| ==> rows[i].id != id
    {
      FindBy(rows, UserId, id)
    }

    /** `findByEmail(email)`: `findUnique` on the unique `email` column. */
    function FindByEmail(email: string): (r: Option<User>)
      reads this
      ensures r.Some? ==> r.value.email == email && r.value in rows
      ensures r.None? <==> forall i :: 0 <= i < |rows| ==> rows[i].email != email
    {
      FindBy(rows, UserEmail, email)
    }

    /** `create({ email, passwordHash, role })`: `name` starts out `null`. */
    method Create(email: string, passwordHash: string, role: Role, newId: string) returns (user: User)
      requires Valid() && FindById(newId).None? && FindByEmail(email).None?
      modifies this
      ensures Valid()
      ensures user == User(newId, email, None, passwordHash, role)
      ensures rows == old(rows) + [user]
      ensures FindById(newId) == Some(user) && FindByEmail(email) == Some(user)
    {
      user := User(newId, email, None, passwordHash, role);
      AppendFacts(rows, UserId, user, newId);
      AppendFacts(rows, UserEmail, user, email);
      rows := rows + [user];
    }

    /** `update(id, data)` */
    method Update(id: string, data: UserUpdate) returns (user: User)
      requires Valid() && FindById(id).Some?
      modifies this
      ensures Valid()
      ensures user == ApplyUserUpdate(old(FindById(id)).value, data)
      ensures rows == Put(old(rows), UserId, user)
      ensures FindById(id) == Some(user)
      ensures forall other :: other != id ==> FindById(other) == old(FindById(other))
    {
      var before := FindById(id).value;
      user := ApplyUserUpdate(before, data);
      assert Has(rows, UserId, id);
      forall other ensures other != id ==> FindBy(Put(rows, UserId, user), UserId, other) == FindBy(rows, UserId, other) {
        PutFacts(rows, UserId, user, other);
      }
      PutFacts(rows, UserId, user, id);
      SameEmailPut(rows, before, user);
      rows := Put(rows, UserId, user);
    }
  }

  /** Rewriting a row without changing its id or e-mail keeps the e-mails unique. */
  lemma SameEmailPut(rows: seq<User>, before: User, after: User)
    requires Unique(rows, UserId) && Unique(rows, UserEmail)
    requires before in rows && after.id == before.id && after.email == before.email
    ensures Unique(Put(rows, UserId, after), UserEmail)
  {
    var r := Put(rows, UserId, after);
    forall i | 0 <= i < |rows| ensures r[i].email == rows[i].email {
      if rows[i].id == after.id {
        var j :| 0 <= j < |rows| && rows[j] == before;
        assert i == j;
      }
    }
  }
}
