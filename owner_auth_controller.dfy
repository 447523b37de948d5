/** backend/src/controllers/ownerAuthController.js: an owner signs up together with the
    store they own. */
module OwnerAuthController {
  import opened Base
  import opened Schema
  import opened Validators
  import opened Tables
  import AuthController

  /** The body of `ownerSignup`; `storeEmail` is required but the Stores table has no
      column to keep it in. */
  datatype OwnerSignupRequest = OwnerSignupRequest(
    name: Option<string>, email: Option<string>, address: Option<string>, password: Option<string>,
    storeName: Option<string>, storeAddress: Option<string>, storeEmail: Option<string>)

  /** The 201 body; `user` is the created row as it stands, bcrypt digest included. */
  datatype OwnerSignupReply = OwnerSignupReply(message: string, token: Token, user: User, store: Store)

  /** The checks of `ownerSignup`, in order: the account checks of user signup, then the
      store fields, then the duplicate email. */
  function OwnerSignupGuards(req: OwnerSignupRequest, users: seq<User>): (gs: seq<Guard>)
    ensures (forall g | g in gs :: !g.fails) <==> OwnerSignupAccepted(req, users)
  {
    AuthController.AccountGuards(req.name, req.email, req.address, req.password)
    + [ Guard(!Truthy(req.storeName) || !Truthy(req.storeAddress) || !Truthy(req.storeEmail), "Store details required"),
        Guard(req.email.Some? && EmailTaken(users, req.email.value), "Email already registered") ]
  }

  predicate OwnerSignupAccepted(req: OwnerSignupRequest, users: seq<User>)
  {
    && AuthController.AccountAccepted(req.name, req.email, req.address, req.password)
    && Truthy(req.storeName) && Truthy(req.storeAddress) && Truthy(req.storeEmail)
    && !EmailTaken(users, req.email.value)
  }

  /** The owner row `ownerSignup` inserts: role forced to OWNER, password replaced by its digest. */
  function NewOwner(req: OwnerSignupRequest, id: nat): User
    requires req.name.Some? && req.email.Some? && req.address.Some? && req.password.Some?
  {
    User(id, req.name.value, req.email.value, Hash(req.password.value), req.address.value, OWNER)
  }

  /** The checks of the owner chain: the account checks come first and speak exactly as in
      user signup; no check fails exactly when the request is acceptable. */
  lemma OwnerSignupGuardsSpec(req: OwnerSignupRequest, users: seq<User>)
    ensures FirstFailure(AuthController.AccountGuards(req.name, req.email, req.address, req.password)).Some? ==>
      FirstFailure(OwnerSignupGuards(req, users))
        == FirstFailure(AuthController.AccountGuards(req.name, req.email, req.address, req.password))
    ensures FirstFailure(AuthController.AccountGuards(req.name, req.email, req.address, req.password)).None? ==>
      FirstFailure(OwnerSignupGuards(req, users)) ==
        if !Truthy(req.storeName) || !Truthy(req.storeAddress) || !Truthy(req.storeEmail) then Some("Store details required")
        else if req.email.Some? && EmailTaken(users, req.email.value) then Some("Email already registered")
        else None
    ensures FirstFailure(OwnerSignupGuards(req, users)).None? <==> OwnerSignupAccepted(req, users)
  {
    var account := AuthController.AccountGuards(req.name, req.email, req.address, req.password);
    var tail := [ Guard(!Truthy(req.storeName) || !Truthy(req.storeAddress) || !Truthy(req.storeEmail), "Store details required"),
                  Guard(req.email.Some? && EmailTaken(users, req.email.value), "Email already registered") ];
    AuthController.AccountGuardsSpec(req.name, req.email, req.address, req.password);
    assert OwnerSignupGuards(req, users) == account + tail;
    FirstFailureAppend(account, tail);
    assert FirstFailure(tail) == if tail[0].fails then Some(tail[0].message) else FirstFailure(tail[1..]);
    assert tail[1..][1..] == [];
    assert FirstFailure(tail[1..]) == if tail[1].fails then Some(tail[1].message) else None;
  }

  /** Both signup handlers reject bad account fields with the same message. */
  lemma SameAccountChecks(req: OwnerSignupRequest, role: Option<string>, users: seq<User>)
    requires FirstFailure(AuthController.AccountGuards(req.name, req.email, req.address, req.password)).Some?
    ensures FirstFailure(OwnerSignupGuards(req, users))
         == FirstFailure(AuthController.SignupGuards(UserRequest(req.name, req.email, req.address, req.password, role), users))
  {
    OwnerSignupGuardsSpec(req, users);
    AuthController.SignupGuardsSpec(UserRequest(req.name, req.email, req.address, req.password, role), users);
  }

  /** The two inserts of `ownerSignup` once its checks have passed: the owner row, then the
      store row owned by it. They are not one transaction: when the store row does not fit
      its columns the owner row stays and the reply is still 500 "Server error". */
  method RegisterOwner(db: Database, req: OwnerSignupRequest) returns (r: Response<OwnerSignupReply>)
    requires db.Valid() && OwnerSignupAccepted(req, db.users)
    modifies db
    ensures db.Valid()
    ensures db.ratings == old(db.ratings) && db.nextRatingId == old(db.nextRatingId)
    ensures old(db.Consistent()) ==> db.Consistent()
    ensures !UserRowFits(req.name, req.email, req.address) ==>
      && r == Error(500, "Server error")
      && db.users == old(db.users) && db.stores == old(db.stores)
      && db.nextStoreId == old(db.nextStoreId)
    ensures UserRowFits(req.name, req.email, req.address) ==> db.nextUserId == old(db.nextUserId) + 1
    ensures UserRowFits(req.name, req.email, req.address) && !StoreRowFits(req.storeName, req.storeAddress) ==>
      && r == Error(500, "Server error")
      && db.users == old(db.users) + [NewOwner(req, old(db.nextUserId))]
      && db.stores == old(db.stores)
    ensures UserRowFits(req.name, req.email, req.address) && StoreRowFits(req.storeName, req.storeAddress) ==>
      && var owner := NewOwner(req, old(db.nextUserId));
      && var store := Store(old(db.nextStoreId), req.storeName.value, req.storeAddress.value, None, owner.id);
      && r == Ok(201, OwnerSignupReply("Owner created successfully", Signed(owner.id, OWNER), owner, store))
      && db.users == old(db.users) + [owner]
      && db.stores == old(db.stores) + [store]
      && db.nextStoreId == old(db.nextStoreId) + 1
  {
    ghost var users0, stores0, nextStore0 := db.users, db.stores, db.nextStoreId;
    ghost var expected := NewOwner(req, db.nextUserId);
    var hashed := Hash(req.password.value);
    var owner := db.CreateUser(req.name, req.email, req.address, hashed, OWNER);
    if owner.None? {
      return Error(500, "Server error");
    }
    assert owner.value == expected;
    assert db.users == users0 + [expected] && db.stores == stores0 && db.nextStoreId == nextStore0;
    assert db.users[|db.users| - 1] == expected;
    var store := db.CreateStore(req.storeName, req.storeAddress, owner.value.id);
    if store.None? {
      return Error(500, "Server error");
    }
    assert store.value == Store(nextStore0, req.storeName.value, req.storeAddress.value, None, expected.id);
    var token := GenerateToken(owner.value.id, owner.value.role);
    r := Ok(201, OwnerSignupReply("Owner created successfully", token, owner.value, store.value));
  }

  /** `ownerSignup`: the checks in order, the first failure deciding the 400 message, then
      the inserts of `RegisterOwner`. */
  method OwnerSignup(db: Database, req: OwnerSignupRequest) returns (r: Response<OwnerSignupReply>)
    requires db.Valid()
    modifies db
    ensures db.Valid()
    ensures db.ratings == old(db.ratings) && db.nextRatingId == old(db.nextRatingId)
    ensures old(db.Consistent()) ==> db.Consistent()
    ensures FirstFailure(OwnerSignupGuards(req, old(db.users))).Some? ==>
      && r == Error(400, FirstFailure(OwnerSignupGuards(req, old(db.users))).value)
      && db.users == old(db.users) && db.stores == old(db.stores)
      && db.nextUserId == old(db.nextUserId) && db.nextStoreId == old(db.nextStoreId)
    ensures r.Ok? ==> db.nextUserId == old(db.nextUserId) + 1 && db.nextStoreId == old(db.nextStoreId) + 1
    ensures FirstFailure(OwnerSignupGuards(req, old(db.users))).None? <==> OwnerSignupAccepted(req, old(db.users))
    ensures OwnerSignupAccepted(req, old(db.users)) && !UserRowFits(req.name, req.email, req.address) ==>
      && r == Error(500, "Server error")
      && db.users == old(db.users) && db.stores == old(db.stores)
    ensures OwnerSignupAccepted(req, old(db.users)) && UserRowFits(req.name, req.email, req.address)
            && !StoreRowFits(req.storeName, req.storeAddress) ==>
      && r == Error(500, "Server error")
      && db.users == old(db.users) + [NewOwner(req, old(db.nextUserId))]
      && db.stores == old(db.stores)
    ensures OwnerSignupAccepted(req, old(db.users)) && UserRowFits(req.name, req.email, req.address)
            && StoreRowFits(req.storeName, req.storeAddress) ==>
      && var owner := NewOwner(req, old(db.nextUserId));
      && var store := Store(old(db.nextStoreId), req.storeName.value, req.storeAddress.value, None, owner.id);
      && r == Ok(201, OwnerSignupReply("Owner created successfully", Signed(owner.id, OWNER), owner, store))
      && db.users == old(db.users) + [owner]
      && db.stores == old(db.stores) + [store]
  {
    AuthController.AccountGuardsOrder(req.name, req.email, req.address, req.password);
    OwnerSignupGuardsSpec(req, db.users);
    if !Truthy(req.name) || |req.name.value| > AuthController.MaxNameLength {
      return Error(400, "Invalid name length");
    }
    if !Truthy(req.email) {
      return Error(400, "Email required");
    }
    if !Truthy(req.address) || |req.address.value| > AuthController.MaxAddressLength {
      return Error(400, "Invalid address");
    }
    if !Truthy(req.password) || !IsValidPassword(req.password.value) {
      return Error(400, AuthController.PasswordMessage);
    }
    if !Truthy(req.storeName) || !Truthy(req.storeAddress) || !Truthy(req.storeEmail) {
      return Error(400, "Store details required");
    }
    if FindUserByEmail(db.users, req.email.value).Some? {
      return Error(400, "Email already registered");
    }
    r := RegisterOwner(db, req);
  }
}
