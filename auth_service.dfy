/** The in-memory user registry behind registration and login: a list of
    stored users with their password hashes, registration that refuses a
    known email, login that checks a password against the stored hash, and
    the public view of a user. Hashing, token issue, the clock and the id
    generator are supplied from outside. */
module AuthService {
  import opened Common

  datatype Role = UserRole | AdminRole

  /** A stored user: the public fields and the password hash. */
  datatype StoredUser = StoredUser(id: string, email: string, username: string, role: Role,
                                   createdAt: string, updatedAt: string, passwordHash: string)

  /** The public view of a user. */
  datatype PublicUser = PublicUser(id: string, email: string, username: string, role: Role,
                                   createdAt: string, updatedAt: string)

  /** The registration payload after the shape check. */
  datatype RegisterRequest = RegisterRequest(email: string, username: string, password: string, role: Option<Role>)

  /** The login payload after the shape check. */
  datatype LoginRequest = LoginRequest(email: string, password: string)

  /** What `register` and `login` hand back (the tokens are issued from
      the same public user and are not modelled). */
  datatype Session = Session(user: PublicUser)

  /** `password: z.string().min(8).max(128)`, in UTF-16 code units. */
  predicate PasswordBounds(password: string) {
    8 <= JsLength(password) <= 128
  }

  /** `RegisterRequestSchema`: a well-formed email, a 3 to 32 character
      username and an 8 to 128 character password. */
  predicate RegisterValid(isEmail: string -> bool, req: RegisterRequest) {
    isEmail(req.email) && 3 <= JsLength(req.username) <= 32 && PasswordBounds(req.password)
  }

  /** `LoginRequestSchema`. */
  predicate LoginValid(isEmail: string -> bool, req: LoginRequest) {
    isEmail(req.email) && PasswordBounds(req.password)
  }

  /** `toPublic`: every field but the password hash. */
  function ToPublic(u: StoredUser): PublicUser {
    PublicUser(u.id, u.email, u.username, u.role, u.createdAt, u.updatedAt)
  }

  /** The public view keeps every public field and does not depend on the
      password hash. */
  lemma {:induction false} PublicHidesHash(u: StoredUser, h: string)
    ensures ToPublic(u) == ToPublic(u.(passwordHash := h))
    ensures var p := ToPublic(u);
      p.id == u.id && p.email == u.email && p.username == u.username && p.role == u.role
      && p.createdAt == u.createdAt && p.updatedAt == u.updatedAt
  {
  }

  /** What a `users.find` looks for. */
  datatype Key = ByEmail(email: string) | ById(id: string)

  predicate Identifies(key: Key, u: StoredUser) {
    match key
    case ByEmail(e) => u.email == e
    case ById(i) => u.id == i
  }

  /** `users.find(...)`: the first stored user the key identifies. */
  function FindUser(users: seq<StoredUser>, key: Key): (r: Option<StoredUser>)
    ensures r.None? <==> forall i :: 0 <= i < |users| ==> !Identifies(key, users[i])
    ensures r.Some? ==> exists i :: 0 <= i < |users| && users[i] == r.value && Identifies(key, r.value)
                          && forall j :: 0 <= j < i ==> !Identifies(key, users[j])
    decreases |users|
  {
    if users == [] then None
    else if Identifies(key, users[0]) then Some(users[0])
    else
      var r := FindUser(users[1..], key);
      assert forall i :: 0 <= i < |users| - 1 ==> users[1..][i] == users[i + 1];
      if r.Some? then
        var i :| 0 <= i < |users| - 1 && users[1..][i] == r.value && Identifies(key, r.value)
                 && forall j :: 0 <= j < i ==> !Identifies(key, users[1..][j]);
        assert users[i + 1] == r.value;
        r
      else r
  }

  /** No two stored users share an email. */
  predicate UniqueEmails(users: seq<StoredUser>) {
    forall i, j :: 0 <= i < j < |users| ==> users[i].email != users[j].email
  }

  /** Appending a user whose email is not yet stored keeps emails unique. */
  lemma {:induction false} AppendKeepsUnique(users: seq<StoredUser>, u: StoredUser)
    requires UniqueEmails(users) && FindUser(users, ByEmail(u.email)).None?
    ensures UniqueEmails(users + [u])
  {
    forall i, j | 0 <= i < j < |users + [u]|
      ensures (users + [u])[i].email != (users + [u])[j].email
    {
      if j == |users| {
        assert !Identifies(ByEmail(u.email), users[i]);
      }
    }
  }

  /** With unique emails, the user found by email is the only one with
      that email. */
  lemma {:induction false} FoundByEmailIsUnique(users: seq<StoredUser>, k: nat)
    requires UniqueEmails(users) && k < |users|
    ensures FindUser(users, ByEmail(users[k].email)) == Some(users[k])
  {
    var r := FindUser(users, ByEmail(users[k].email));
    assert Identifies(ByEmail(users[k].email), users[k]);
    var i :| 0 <= i < |users| && users[i] == r.value && Identifies(ByEmail(users[k].email), r.value)
             && forall j :: 0 <= j < i ==> !Identifies(ByEmail(users[k].email), users[j]);
    if i != k {
      assert users[i].email == users[k].email;
    }
  }

  /** The stored record of a successful registration. */
  function NewUser(req: RegisterRequest, id: string, passwordHash: string, now: string): StoredUser {
    StoredUser(id, req.email, req.username, req.role.GetOr(UserRole), now, now, passwordHash)
  }

  /** The module-level `users` list, with the email check of the request
      schemas and the password check of the hashing library. */
  class Registry {
    var users: seq<StoredUser>
    const isEmail: string -> bool
    const passwordMatches: (string, string) -> bool

    predicate Valid()
      reads this
    {
      UniqueEmails(users)
    }

    constructor (isEmail: string -> bool, passwordMatches: (string, string) -> bool)
      ensures users == [] && Valid()
      ensures this.isEmail == isEmail && this.passwordMatches == passwordMatches
    {
      users := [];
      this.isEmail := isEmail;
      this.passwordMatches := passwordMatches;
    }

    /** `register(raw)`: a payload the schema refuses is a bad request, a
        known email a conflict; otherwise one record is appended, with the
        role defaulting to `user` and both timestamps set to `now`. The id,
        hash and time are supplied. */
    method Register(req: RegisterRequest, id: string, passwordHash: string, now: string) returns (r: Result<Session>)
      requires Valid()
      modifies this
      ensures Valid()
      ensures !RegisterValid(isEmail, req) ==> r == Err(BadRequest) && users == old(users)
      ensures RegisterValid(isEmail, req) && FindUser(old(users), ByEmail(req.email)).Some? ==>
                r == Err(Conflict) && users == old(users)
      ensures RegisterValid(isEmail, req) && FindUser(old(users), ByEmail(req.email)).None? ==>
                var u := NewUser(req, id, passwordHash, now);
                users == old(users) + [u] && r == Ok(Session(ToPublic(u)))
      ensures r.Ok? ==> r.value.user.role == req.role.GetOr(UserRole) && r.value.user.createdAt == r.value.user.updatedAt
    {
      if !RegisterValid(isEmail, req) {
        return Err(BadRequest);
      }
      if FindUser(users, ByEmail(req.email)).Some? {
        return Err(Conflict);
      }
      var user := NewUser(req, id, passwordHash, now);
      AppendKeepsUnique(users, user);
      users := users + [user];
      r := Ok(Session(ToPublic(user)));
    }

    /** `login(raw)`: a payload the schema refuses is a bad request; an
        unknown email or a password that does not match the stored hash is
        unauthorized; otherwise the public view of the stored user. */
    method Login(req: LoginRequest) returns (r: Result<Session>)
      requires Valid()
      ensures !LoginValid(isEmail, req) ==> r == Err(BadRequest)
      ensures LoginValid(isEmail, req) ==>
        (r.Ok? <==> exists i :: 0 <= i < |users| && users[i].email == req.email && passwordMatches(req.password, users[i].passwordHash))
      ensures LoginValid(isEmail, req) && r.Err? ==> r.failure == Unauthorized
      ensures r.Ok? ==> exists i :: 0 <= i < |users| && users[i].email == req.email && r.value.user == ToPublic(users[i])
    {
      if !LoginValid(isEmail, req) {
        return Err(BadRequest);
      }
      var user := FindUser(users, ByEmail(req.email));
      if user.None? {
        return Err(Unauthorized);
      }
      var i :| 0 <= i < |users| && users[i] == user.value && Identifies(ByEmail(req.email), user.value)
               && forall j :: 0 <= j < i ==> !Identifies(ByEmail(req.email), users[j]);
      if !passwordMatches(req.password, user.value.passwordHash) {
        return Err(Unauthorized);
      }
      r := Ok(Session(ToPublic(user.value)));
    }

    /** `getUserById(id)`: the first stored record with that id, hash
        included, or none. */
    method GetUserById(id: string) returns (r: Option<StoredUser>)
      ensures r.None? <==> forall i :: 0 <= i < |users| ==> users[i].id != id
      ensures r.Some? ==> exists i :: 0 <= i < |users| && users[i] == r.value && r.value.id == id
                            && forall j :: 0 <= j < i ==> users[j].id != id
    {
      r := FindUser(users, ById(id));
    }
  }

  /** After a successful registration, looking the email up finds the new
      record, so a login with that email checks the new hash. */
  lemma {:induction false} RegisteredFindsItself(users: seq<StoredUser>, u: StoredUser)
    requires UniqueEmails(users) && FindUser(users, ByEmail(u.email)).None?
    ensures FindUser(users + [u], ByEmail(u.email)) == Some(u)
  {
    AppendKeepsUnique(users, u);
    FoundByEmailIsUnique(users + [u], |users|);
  }
}
