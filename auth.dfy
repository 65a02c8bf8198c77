/** The authentication routes (backend/src/routes/auth.ts): registration
    with its default role, login and its failure paths, the user listing and
    the role update, over a user store. Password hashing and comparison
    (bcrypt) and token signing (JWT) are parameters. */
module Auth {

  import opened Rows
  import opened Access

  datatype User = User(id: int, name: string, email: string, password: string, role: string, createdAt: int)

  /** The fields the register, login and role-update responses expose. */
  datatype PublicUser = PublicUser(id: int, name: string, email: string, role: string)

  /** The fields the user listing selects. */
  datatype UserListing = UserListing(id: int, name: string, email: string, role: string, createdAt: int)

  datatype Result<T> = Ok(value: T) | Err(error: string)

  datatype LoginResponse = LoginResponse(token: string, user: PublicUser)

  function Public(u: User): PublicUser {
    PublicUser(u.id, u.name, u.email, u.role)
  }

  /** `role || 'user'`: an absent or empty role becomes 'user'. */
  function DefaultRole(role: Option<string>): (r: string)
    ensures r != ""
    ensures role == None || role == Some("") ==> r == "user"
    ensures role.Some? && role.value != "" ==> r == role.value
  {
    if role.Some? && role.value != "" then role.value else "user"
  }

  /** The user with that email (emails are unique in the store). */
  function FindByEmail(users: seq<User>, email: string): (r: Option<User>)
    ensures r.Some? ==> r.value in users && r.value.email == email
    ensures r.None? <==> forall u :: u in users ==> u.email != email
  {
    if users == [] then None
    else if users[0].email == email then Some(users[0])
    else FindByEmail(users[1..], email)
  }

  /** The position of the user with that id. */
  function FindById(users: seq<User>, id: int): (r: Option<nat>)
    ensures r.Some? ==> r.value < |users| && users[r.value].id == id
    ensures r.None? <==> forall u :: u in users ==> u.id != id
  {
    if users == [] then None
    else if users[0].id == id then Some(0)
    else match FindById(users[1..], id)
      case None => None
      case Some(i) => Some(i + 1)
  }

  ghost predicate UniqueEmails(users: seq<User>) {
    forall i, j :: 0 <= i < j < |users| ==> users[i].email != users[j].email
  }

  /** POST /auth/login. `matches(password, hash)` is bcrypt's comparison
      and `sign` the JWT signing with the server secret and a 24-hour expiry. */
  function Login(users: seq<User>, email: string, password: string,
                 matches: (string, string) -> bool, sign: TokenPayload -> string): (r: Result<LoginResponse>)
    ensures r.Err? ==> r.error == "Invalid credentials"
    ensures r.Ok? <==> exists u :: u in users && u.email == email && matches(password, FindByEmail(users, email).value.password)
    ensures r.Ok? ==> var u := FindByEmail(users, email).value;
                      r.value == LoginResponse(sign(TokenPayload(u.id, u.role)), Public(u))
  {
    match FindByEmail(users, email)
    case None => Err("Invalid credentials")
    case Some(user) =>
      if !matches(password, user.password) then Err("Invalid credentials")
      else Ok(LoginResponse(sign(TokenPayload(user.id, user.role)), Public(user)))
  }

  /** An unknown email and a wrong password give the same answer. */
  lemma LoginFailuresAlike(users: seq<User>, unknown: string, known: string, password: string,
                           matches: (string, string) -> bool, sign: TokenPayload -> string)
    requires forall u :: u in users ==> u.email != unknown
    requires FindByEmail(users, known).Some? && !matches(password, FindByEmail(users, known).value.password)
    ensures Login(users, unknown, password, matches, sign) == Login(users, known, password, matches, sign)
  {
  }

  /** In a store with unique emails, the user login finds is the only one with that email. */
  lemma {:induction false} FindByEmailUnique(users: seq<User>, u: User)
    requires UniqueEmails(users) && u in users
    ensures FindByEmail(users, u.email) == Some(u)
  {
    if users[0] != u {
      var i :| 0 <= i < |users| && users[i] == u;
      assert users[0].email != users[i].email;
      assert users[1..][i - 1] == u;
      FindByEmailUnique(users[1..], u);
    }
  }

  /** The user is found after being appended when no one had the email before. */
  lemma {:induction false} FindByEmailAppend(users: seq<User>, u: User)
    requires forall v :: v in users ==> v.email != u.email
    ensures FindByEmail(users + [u], u.email) == Some(u)
  {
    if users != [] {
      assert (users + [u])[1..] == users[1..] + [u];
      FindByEmailAppend(users[1..], u);
    }
  }

  /** GET /users: every user, without the password. */
  function ListUsers(users: seq<User>): (r: seq<UserListing>)
    ensures |r| == |users|
    ensures forall i :: 0 <= i < |users| ==>
              r[i] == UserListing(users[i].id, users[i].name, users[i].email, users[i].role, users[i].createdAt)
  {
    if users == [] then []
    else [UserListing(users[0].id, users[0].name, users[0].email, users[0].role, users[0].createdAt)]
         + ListUsers(users[1..])
  }

  /** The user table. `nextId` is the id the store assigns next. */
  class UserStore {
    var users: seq<User>
    var nextId: int

    ghost predicate Valid()
      reads this
    {
      UniqueEmails(users) &&
      (forall i :: 0 <= i < |users| ==> users[i].id < nextId) &&
      (forall i, j :: 0 <= i < j < |users| ==> users[i].id != users[j].id)
    }

    constructor()
      ensures Valid() && users == [] && nextId == 1
    {
      users := [];
      nextId := 1;
    }

    /** POST /auth/register. `hashedPassword` is the bcrypt hash of the
        password; a taken email makes the create fail. */
    method Register(name: string, email: string, hashedPassword: string, role: Option<string>, now: int)
      returns (r: Result<PublicUser>)
      requires Valid()
      modifies this
      ensures Valid()
      ensures FindByEmail(old(users), email).Some? ==>
                r == Err("Failed to register user") && users == old(users) && nextId == old(nextId)
      ensures FindByEmail(old(users), email).None? ==>
                users == old(users) + [User(old(nextId), name, email, hashedPassword, DefaultRole(role), now)] &&
                nextId == old(nextId) + 1 &&
                r == Ok(PublicUser(old(nextId), name, email, DefaultRole(role)))
    {
      if FindByEmail(users, email).Some? {
        return Err("Failed to register user");
      }
      var user := User(nextId, name, email, hashedPassword, if role.Some? && role.value != "" then role.value else "user", now);
      users := users + [user];
      nextId := nextId + 1;
      r := Ok(PublicUser(user.id, user.name, user.email, user.role));
    }

    /** PUT /users/:id/role. An absent role leaves the user as it is; a
        missing id makes the update fail. */
    method UpdateRole(id: int, role: Option<string>) returns (r: Result<PublicUser>)
      requires Valid()
      modifies this
      ensures Valid() && nextId == old(nextId)
      ensures FindById(old(users), id).None? ==> r == Err("Failed to update user role") && users == old(users)
      ensures FindById(old(users), id).Some? ==>
                var i := FindById(old(users), id).value;
                var updated := if role.Some? then old(users)[i].(role := role.value) else old(users)[i];
                users == old(users)[i := updated] && r == Ok(Public(updated))
    {
      var found := FindById(users, id);
      if found.None? {
        return Err("Failed to update user role");
      }
      var i := found.value;
      var updated := users[i];
      if role.Some? {
        updated := updated.(role := role.value);
      }
      users := users[i := updated];
      r := Ok(PublicUser(updated.id, updated.name, updated.email, updated.role));
    }
  }

  /** Registering and then logging in with the same password succeeds, and
      the token carries the new id and the defaulted role. */
  lemma RegisterThenLogin(users: seq<User>, id: int, name: string, email: string, password: string,
                          hashedPassword: string, role: Option<string>, now: int,
                          matches: (string, string) -> bool, sign: TokenPayload -> string)
    requires FindByEmail(users, email).None?
    requires matches(password, hashedPassword)
    ensures Login(users + [User(id, name, email, hashedPassword, DefaultRole(role), now)], email, password, matches, sign)
            == Ok(LoginResponse(sign(TokenPayload(id, DefaultRole(role))), PublicUser(id, name, email, DefaultRole(role))))
  {
    FindByEmailAppend(users, User(id, name, email, hashedPassword, DefaultRole(role), now));
  }

  /** After a role update, login signs the new role for that user and leaves
      every other user's login as it was. */
  lemma LoginAfterRoleUpdate(users: seq<User>, i: nat, role: string, password: string,
                             matches: (string, string) -> bool, sign: TokenPayload -> string)
    requires UniqueEmails(users) && i < |users| && matches(password, users[i].password)
    ensures var u := users[i];
            Login(users[i := u.(role := role)], u.email, password, matches, sign)
            == Ok(LoginResponse(sign(TokenPayload(u.id, role)), PublicUser(u.id, u.name, u.email, role)))
    ensures forall j :: 0 <= j < |users| && j != i ==>
              Login(users[i := users[i].(role := role)], users[j].email, password, matches, sign)
              == Login(users, users[j].email, password, matches, sign)
  {
    var u := users[i];
    var after := users[i := u.(role := role)];
    assert UniqueEmails(after) by {
      forall a, b | 0 <= a < b < |after| ensures after[a].email != after[b].email {
        assert after[a].email == users[a].email && after[b].email == users[b].email;
      }
    }
    assert after[i] in after;
    FindByEmailUnique(after, after[i]);
    forall j | 0 <= j < |users| && j != i
      ensures Login(after, users[j].email, password, matches, sign) == Login(users, users[j].email, password, matches, sign)
    {
      assert after[j] == users[j] && users[j] in after && users[j] in users;
      FindByEmailUnique(after, users[j]);
      FindByEmailUnique(users, users[j]);
    }
  }

  /** The /users routes: the token check, then `checkPermission('admin')`. */
  function AdminGuard(header: Option<string>, verify: string -> Option<TokenPayload>): (r: AuthOutcome)
    ensures r.Next? <==> (AuthenticateToken(header, verify).Next? &&
                          var role := AuthenticateToken(header, verify).user.role;
                          role == "admin" || Rank(role).None?)
  {
    match AuthenticateToken(header, verify)
    case Next(user) =>
      (match CheckPermission(user, "admin")
       case Granted => Next(user)
       case Denied(error) => Forbidden(error))
    case other => other
  }
}
