/** backend/src/controllers/authController.js: user signup and login. */
module AuthController {
  import opened Base
  import opened Schema
  import opened Validators
  import opened Ledger
  import opened Tables
  import opened Text

  const PasswordMessage: string := "Password must be 8-16 chars, contain 1 uppercase & 1 special character"
  const MaxNameLength: nat := 20
  const MaxAddressLength: nat := 400

  /** The account checks that open both signup handlers, in their order. */
  function AccountGuards(name: Option<string>, email: Option<string>, address: Option<string>,
                         password: Option<string>): (gs: seq<Guard>)
    ensures (forall g | g in gs :: !g.fails) <==> AccountAccepted(name, email, address, password)
  {
    [ Guard(!Truthy(name) || |name.value| > MaxNameLength, "Invalid name length"),
      Guard(!Truthy(email), "Email required"),
      Guard(!Truthy(address) || |address.value| > MaxAddressLength, "Invalid address"),
      Guard(!Truthy(password) || !IsValidPassword(password.value), PasswordMessage) ]
  }

  /** The account checks pass: a name of 1..20 characters, some email text, an address of
      1..400 characters and a password meeting the policy. */
  predicate AccountAccepted(name: Option<string>, email: Option<string>, address: Option<string>,
                            password: Option<string>)
  {
    && Truthy(name) && |name.value| <= MaxNameLength
    && Truthy(email)
    && Truthy(address) && |address.value| <= MaxAddressLength
    && Truthy(password) && IsValidPassword(password.value)
  }

  /** The checks of `signup`, in order. */
  function SignupGuards(req: UserRequest, users: seq<User>): (gs: seq<Guard>)
    ensures (forall g | g in gs :: !g.fails) <==> SignupAccepted(req, users)
  {
    AccountGuards(req.name, req.email, req.address, req.password)
    + [ Guard(ParseRole(req.role).None?, "Invalid role"),
        Guard(req.email.Some? && EmailTaken(users, req.email.value), "Email already registered") ]
  }

  predicate SignupAccepted(req: UserRequest, users: seq<User>)
  {
    && AccountAccepted(req.name, req.email, req.address, req.password)
    && ParseRole(req.role).Some?
    && !EmailTaken(users, req.email.value)
  }

  /** The account checks as the handler runs them: each check speaks only when every check
      before it passed. */
  lemma AccountGuardsOrder(name: Option<string>, email: Option<string>, address: Option<string>,
                           password: Option<string>)
    ensures FirstFailure(AccountGuards(name, email, address, password)) ==
      if !Truthy(name) || |name.value| > MaxNameLength then Some("Invalid name length")
      else if !Truthy(email) then Some("Email required")
      else if !Truthy(address) || |address.value| > MaxAddressLength then Some("Invalid address")
      else if !Truthy(password) || !IsValidPassword(password.value) then Some(PasswordMessage)
      else None
  {
    var gs := AccountGuards(name, email, address, password);
    var g1, g2, g3 := gs[1..], gs[1..][1..], gs[1..][1..][1..];
    assert FirstFailure(gs) == if gs[0].fails then Some(gs[0].message) else FirstFailure(g1);
    assert FirstFailure(g1) == if gs[1].fails then Some(gs[1].message) else FirstFailure(g2);
    assert FirstFailure(g2) == if gs[2].fails then Some(gs[2].message) else FirstFailure(g3);
    assert g3[1..] == [];
    assert FirstFailure(g3) == if gs[3].fails then Some(gs[3].message) else None;
  }

  /** The account checks pass exactly when the fields are acceptable. */
  lemma AccountGuardsSpec(name: Option<string>, email: Option<string>, address: Option<string>,
                          password: Option<string>)
    ensures FirstFailure(AccountGuards(name, email, address, password)).None? <==>
            AccountAccepted(name, email, address, password)
    ensures FirstFailure(AccountGuards(name, email, address, password)) != Some("Email already registered")
  {
    AccountGuardsOrder(name, email, address, password);
  }

  /** No check of the signup chain fails exactly when the request is acceptable; the
      duplicate email is reported exactly when every other check passed. */
  lemma SignupGuardsSpec(req: UserRequest, users: seq<User>)
    ensures FirstFailure(AccountGuards(req.name, req.email, req.address, req.password)).Some? ==>
      FirstFailure(SignupGuards(req, users)) == FirstFailure(AccountGuards(req.name, req.email, req.address, req.password))
    ensures FirstFailure(AccountGuards(req.name, req.email, req.address, req.password)).None? ==>
      FirstFailure(SignupGuards(req, users)) ==
        if ParseRole(req.role).None? then Some("Invalid role")
        else if req.email.Some? && EmailTaken(users, req.email.value) then Some("Email already registered")
        else None
    ensures FirstFailure(SignupGuards(req, users)).None? <==> SignupAccepted(req, users)
    ensures FirstFailure(SignupGuards(req, users)) == Some("Email already registered") <==>
      && AccountAccepted(req.name, req.email, req.address, req.password)
      && ParseRole(req.role).Some?
      && EmailTaken(users, req.email.value)
  {
    var account := AccountGuards(req.name, req.email, req.address, req.password);
    var tail := [ Guard(ParseRole(req.role).None?, "Invalid role"),
                  Guard(req.email.Some? && EmailTaken(users, req.email.value), "Email already registered") ];
    AccountGuardsSpec(req.name, req.email, req.address, req.password);
    assert SignupGuards(req, users) == account + tail;
    FirstFailureAppend(account, tail);
    assert FirstFailure(tail) == if tail[0].fails then Some(tail[0].message) else FirstFailure(tail[1..]);
    assert tail[1..][1..] == [];
    assert FirstFailure(tail[1..]) == if tail[1].fails then Some(tail[1].message) else None;
  }

  /** `signup`: the checks in order, the first failure deciding the 400 message; then one
      insert with the bcrypt digest in place of the password. An email wider than the column
      makes the insert fail, answered as 500 "Server error". */
  method Signup(db: Database, req: UserRequest) returns (r: Response<string>)
    requires db.Valid()
    modifies db
    ensures db.Valid()
    ensures db.stores == old(db.stores) && db.ratings == old(db.ratings)
    ensures db.nextStoreId == old(db.nextStoreId) && db.nextRatingId == old(db.nextRatingId)
    ensures old(db.Consistent()) ==> db.Consistent()
    ensures FirstFailure(SignupGuards(req, old(db.users))).Some? ==>
      && r == Error(400, FirstFailure(SignupGuards(req, old(db.users))).value)
      && db.users == old(db.users) && db.nextUserId == old(db.nextUserId)
    ensures r.Ok? ==> db.nextUserId == old(db.nextUserId) + 1
    ensures FirstFailure(SignupGuards(req, old(db.users))).None? <==> SignupAccepted(req, old(db.users))
    ensures SignupAccepted(req, old(db.users)) && |req.email.value| <= UserEmailWidth ==>
      && r == Ok(201, "User created successfully")
      && db.users == old(db.users) + [User(old(db.nextUserId), req.name.value, req.email.value,
                                            Hash(req.password.value), req.address.value, ParseRole(req.role).value)]
    ensures SignupAccepted(req, old(db.users)) && |req.email.value| > UserEmailWidth ==>
      r == Error(500, "Server error") && db.users == old(db.users)
  {
    AccountGuardsOrder(req.name, req.email, req.address, req.password);
    SignupGuardsSpec(req, db.users);
    if !Truthy(req.name) || |req.name.value| > MaxNameLength {
      return Error(400, "Invalid name length");
    }
    if !Truthy(req.email) {
      return Error(400, "Email required");
    }
    if !Truthy(req.address) || |req.address.value| > MaxAddressLength {
      return Error(400, "Invalid address");
    }
    if !Truthy(req.password) || !IsValidPassword(req.password.value) {
      return Error(400, PasswordMessage);
    }
    var role := ParseRole(req.role);
    if role.None? {
      return Error(400, "Invalid role");
    }
    if FindUserByEmail(db.users, req.email.value).Some? {
      return Error(400, "Email already registered");
    }
    var hashed := Hash(req.password.value);
    var created := db.CreateUser(req.name, req.email, req.address, hashed, role.value);
    if created.None? {
      return Error(500, "Server error");
    }
    r := Ok(201, "User created successfully");
  }

  /** The backend asks only for some email text: a request whose email has no `@` passes
      every check of the chain. */
  lemma SignupIgnoresEmailFormat()
    ensures SignupAccepted(UserRequest(Some("Alice"), Some("alice"), Some("Main Street"),
                                       Some("Passw0rd!"), Some("USER")), [])
  {
    assert IsUpper("Passw0rd!"[0]) && IsSpecial("Passw0rd!"[8]);
  }

  /** The successful body of `login`. */
  datatype LoginReply = LoginReply(token: Token, role: Role, userId: nat)

  /** `login`: both fields required, then the user with that email and the bcrypt check;
      an unknown email and a wrong password get the same answer. */
  function Login(users: seq<User>, email: Option<string>, password: Option<string>): (r: Response<LoginReply>)
    ensures r.Error? ==> r.status == 400
    ensures !Truthy(email) || !Truthy(password) ==> r == Error(400, "Email & password required")
    ensures r.Ok? ==>
      && Truthy(email) && Truthy(password)
      && r.body.token == GenerateToken(r.body.userId, r.body.role)
      && exists k | 0 <= k < |users| ::
           && users[k].email == email.value && users[k].id == r.body.userId && users[k].role == r.body.role
           && Compare(password.value, users[k].password)
  {
    if !Truthy(email) || !Truthy(password) then Error(400, "Email & password required")
    else match FindUserByEmail(users, email.value)
      case None => Error(400, "Invalid credentials")
      case Some(k) =>
        if !Compare(password.value, users[k].password) then Error(400, "Invalid credentials")
        else Ok(200, LoginReply(GenerateToken(users[k].id, users[k].role), users[k].role, users[k].id))
  }

  /** Login succeeds exactly for a registered email with its own password, and then returns
      that user's token, role and id; every other failure with both fields present is the
      one uniform "Invalid credentials" reply. */
  lemma LoginSpec(users: seq<User>, nextId: nat, email: string, password: string)
    requires UsersValid(users, nextId) && email != "" && password != ""
    ensures Login(users, Some(email), Some(password)).Ok? <==>
      exists k | 0 <= k < |users| :: users[k].email == email && Compare(password, users[k].password)
    ensures forall k | 0 <= k < |users| && users[k].email == email && Compare(password, users[k].password) ::
      Login(users, Some(email), Some(password))
        == Ok(200, LoginReply(GenerateToken(users[k].id, users[k].role), users[k].role, users[k].id))
    ensures Login(users, Some(email), Some(password)).Error? ==>
      Login(users, Some(email), Some(password)) == Error(400, "Invalid credentials")
  {
    match FindUserByEmail(users, email)
    case None =>
    case Some(j) =>
      forall k | 0 <= k < |users| && users[k].email == email ensures k == j {
      }
  }

  /** An unknown email and a known email with a wrong password get identical replies. */
  lemma LoginDoesNotRevealAccounts(users: seq<User>, nextId: nat, unknown: string, known: string, wrong: string, password: string)
    requires UsersValid(users, nextId) && unknown != "" && known != "" && wrong != "" && password != ""
    requires !EmailTaken(users, unknown)
    requires forall k | 0 <= k < |users| && users[k].email == known :: !Compare(wrong, users[k].password)
    ensures Login(users, Some(unknown), Some(password)) == Login(users, Some(known), Some(wrong))
    ensures Login(users, Some(unknown), Some(password)) == Error(400, "Invalid credentials")
  {
    LoginSpec(users, nextId, known, wrong);
  }

  /** A user just added by signup logs in with the same email and password and gets a token
      for its own id and role. */
  lemma SignupThenLogin(users: seq<User>, u: User, password: string)
    requires !EmailTaken(users, u.email) && u.email != "" && password != ""
    requires u.password == Hash(password)
    ensures Login(users + [u], Some(u.email), Some(password))
            == Ok(200, LoginReply(GenerateToken(u.id, u.role), u.role, u.id))
  {
    var all := users + [u];
    assert all[|users|] == u;
    var k := FindUserByEmail(all, u.email).value;
  }
}
