/** backend/src/controllers/adminController.js: the administrator's dashboard counts,
    listings, and creation of users and stores. */
module AdminController {
  import opened Base
  import opened Schema
  import opened Sequences
  import opened Ledger
  import opened Tables

  /** The number of users holding `role` (`User.count({ where: { role } })`). */
  function CountRole(users: seq<User>, role: Role): (n: nat)
    ensures n <= |users|
    ensures n == 0 <==> forall u | u in users :: u.role != role
  {
    if users == [] then 0
    else (if users[0].role == role then 1 else 0) + CountRole(users[1..], role)
  }

  /** The three roles partition the users. */
  lemma {:induction false} RoleCountsPartition(users: seq<User>)
    ensures CountRole(users, ADMIN) + CountRole(users, USER) + CountRole(users, OWNER) == |users|
  {
    if users != [] {
      RoleCountsPartition(users[1..]);
    }
  }

  /** Adding one user raises the count of its role by one and no other count. */
  lemma {:induction false} CountRoleAppend(users: seq<User>, u: User, role: Role)
    ensures CountRole(users + [u], role) == CountRole(users, role) + (if u.role == role then 1 else 0)
  {
    if users == [] {
      assert users + [u] == [u];
    } else {
      assert (users + [u])[1..] == users[1..] + [u];
      CountRoleAppend(users[1..], u, role);
    }
  }

  datatype DashboardStats = DashboardStats(totalUsers: nat, totalStores: nat, totalRatings: nat)

  /** `getDashboardStats`: "users" counts only the accounts with role USER. */
  function GetDashboardStats(users: seq<User>, stores: seq<Store>, ratings: seq<Rating>): (d: DashboardStats)
    ensures d.totalUsers <= |users| && d.totalStores == |stores| && d.totalRatings == |ratings|
  {
    DashboardStats(CountRole(users, USER), |stores|, |ratings|)
  }

  /** The dashboard leaves out exactly the administrators and the owners. */
  lemma DashboardUsersExcludeStaff(users: seq<User>, stores: seq<Store>, ratings: seq<Rating>)
    ensures GetDashboardStats(users, stores, ratings).totalUsers
            == |users| - CountRole(users, ADMIN) - CountRole(users, OWNER)
  {
    RoleCountsPartition(users);
  }

  /** One row of `getUsers`: the listed attributes, never the password digest. */
  datatype UserSummary = UserSummary(id: nat, name: string, email: string, address: string, role: Role)

  function Summary(u: User): UserSummary
  {
    UserSummary(u.id, u.name, u.email, u.address, u.role)
  }

  /** `getUsers`: every user, in table order. */
  function GetUsers(users: seq<User>): (rows: seq<UserSummary>)
    ensures |rows| == |users|
  {
    seq(|users|, i requires 0 <= i < |users| => Summary(users[i]))
  }

  /** Every listed row is the user's own, and a user added to the table shows up as the last
      row, the earlier rows unchanged. */
  lemma GetUsersSpec(users: seq<User>, u: User)
    ensures forall i | 0 <= i < |users| ::
      var row := GetUsers(users)[i];
      && row.id == users[i].id && row.name == users[i].name && row.email == users[i].email
      && row.address == users[i].address && row.role == users[i].role
    ensures GetUsers(users + [u]) == GetUsers(users) + [Summary(u)]
  {
    assert forall i | 0 <= i < |users| :: (users + [u])[i] == users[i];
  }

  /** One row of `getStores`; the store email is not a column and never appears. */
  datatype StoreListing = StoreListing(id: nat, name: string, address: string, averageRating: Option<real>)

  function Listing(s: Store, ratings: seq<Rating>): StoreListing
  {
    StoreListing(s.id, s.name, s.address, Mean(ValuesFor(ratings, s.id)))
  }

  /** `getStores`: every store with the mean of its ratings, null when it has none. */
  function ListStores(stores: seq<Store>, ratings: seq<Rating>): (rows: seq<StoreListing>)
    ensures |rows| == |stores|
  {
    seq(|stores|, i requires 0 <= i < |stores| => Listing(stores[i], ratings))
  }

  /** The `getStores` handler for a given eager-load alias; the source's include names none. */
  function GetStores(stores: seq<Store>, ratings: seq<Rating>, includeAs: Option<string>): Response<seq<StoreListing>>
  {
    if IncludeResolves(includeAs) then Ok(200, ListStores(stores, ratings))
    else Error(500, "Failed to get stores")
  }

  /** As written (no alias in the include) the handler answers 500 whatever the tables hold. */
  lemma GetStoresAsWritten(stores: seq<Store>, ratings: seq<Rating>)
    ensures GetStores(stores, ratings, None) == Error(500, "Failed to get stores")
  {
  }

  /** The listing computed by `getStores` agrees with the stored column whenever the ledger
      is consistent, is null exactly for unrated stores and otherwise lies in 1..5. */
  lemma ListStoresSpec(stores: seq<Store>, users: seq<User>, ratings: seq<Rating>, nextRatingId: nat, i: nat)
    requires RatingsValid(ratings, users, stores, nextRatingId) && i < |stores|
    ensures GetStores(stores, ratings, Some(RatingsAlias)) == Ok(200, ListStores(stores, ratings))
    ensures var row := ListStores(stores, ratings)[i];
      && row.id == stores[i].id
      && (row.averageRating.None? <==> forall r | r in ratings :: r.storeId != stores[i].id)
      && (row.averageRating.Some? ==> 1.0 <= row.averageRating.value <= 5.0)
      && (AveragesCurrent(stores, ratings) ==> row.averageRating == stores[i].averageRating)
  {
    StoreMeanSpec(ratings, users, stores, nextRatingId, stores[i].id);
  }

  /** The request fields of `createUser` are accepted as they are: a known role, a free
      email, a password, and columns that fit. */
  predicate CreateUserAccepted(req: UserRequest, users: seq<User>)
  {
    && ParseRole(req.role).Some?
    && UserRowFits(req.name, req.email, req.address)
    && !EmailTaken(users, req.email.value)
    && req.password.Some?
  }

  /** `createUser`: the role is checked first; then the lookup by email (which raises on an
      absent email), the duplicate check, the digest (which raises on an absent password) and
      the insert (which raises on a missing or over-wide column). Every raise answers 500
      "User creation failed". There is no name-length or password-policy check here. */
  method CreateUser(db: Database, req: UserRequest) returns (r: Response<string>)
    requires db.Valid()
    modifies db
    ensures db.Valid()
    ensures db.stores == old(db.stores) && db.ratings == old(db.ratings)
    ensures old(db.Consistent()) ==> db.Consistent()
    ensures r.Ok? <==> CreateUserAccepted(req, old(db.users))
    ensures r.Ok? ==>
      && r == Ok(200, "User created successfully")
      && db.users == old(db.users) + [User(old(db.nextUserId), req.name.value, req.email.value,
                                            Hash(req.password.value), req.address.value, ParseRole(req.role).value)]
    ensures r.Error? ==> db.users == old(db.users)
    ensures db.nextStoreId == old(db.nextStoreId) && db.nextRatingId == old(db.nextRatingId)
    ensures r.Ok? ==> db.nextUserId == old(db.nextUserId) + 1
    ensures r.Error? && r.status == 400 ==> db.nextUserId == old(db.nextUserId)
    ensures req.email.None? || req.password.None? ==> db.nextUserId == old(db.nextUserId)
    ensures ParseRole(req.role).None? ==> r == Error(400, "Invalid role")
    ensures ParseRole(req.role).Some? && req.email.Some? && EmailTaken(old(db.users), req.email.value) ==>
      r == Error(400, "Email already exists")
    ensures ParseRole(req.role).Some? && (req.email.None? || !EmailTaken(old(db.users), req.email.value)) ==>
      r.Ok? || r == Error(500, "User creation failed")
  {
    var role := ParseRole(req.role);
    if role.None? {
      return Error(400, "Invalid role");
    }
    if req.email.None? {
      return Error(500, "User creation failed");
    }
    if FindUserByEmail(db.users, req.email.value).Some? {
      return Error(400, "Email already exists");
    }
    if req.password.None? {
      return Error(500, "User creation failed");
    }
    var created := db.CreateUser(req.name, req.email, req.address, Hash(req.password.value), role.value);
    if created.None? {
      return Error(500, "User creation failed");
    }
    r := Ok(200, "User created successfully");
  }

  /** The administrator can create an account whose name and password the signup checks
      would refuse. */
  lemma CreateUserSkipsSignupChecks()
    ensures CreateUserAccepted(UserRequest(Some(""), Some("a@b.c"), Some(""), Some("x"), Some("ADMIN")), [])
  {
  }

  /** The body of `createStore`; `email` has no column and is dropped by the insert. */
  datatype StoreRequest = StoreRequest(name: Option<string>, email: Option<string>, address: Option<string>,
                                       ownerId: Option<nat>)

  /** `createStore`: the owner must be a user with role OWNER (an absent id finds no one);
      then the insert, which fails with 500 on a missing or over-wide column. An owner may
      be given any number of stores. */
  method CreateStore(db: Database, req: StoreRequest) returns (r: Response<string>)
    requires db.Valid()
    modifies db
    ensures db.Valid()
    ensures db.users == old(db.users) && db.ratings == old(db.ratings)
    ensures db.nextUserId == old(db.nextUserId) && db.nextRatingId == old(db.nextRatingId)
    ensures r.Error? && r.status == 400 ==> db.nextStoreId == old(db.nextStoreId)
    ensures r.Ok? ==> db.nextStoreId == old(db.nextStoreId) + 1
    ensures old(db.Consistent()) ==> db.Consistent()
    ensures r == Error(400, "Invalid owner") <==> req.ownerId.None? || !IsOwner(old(db.users), req.ownerId.value)
    ensures req.ownerId.Some? && IsOwner(old(db.users), req.ownerId.value) ==>
      if StoreRowFits(req.name, req.address) then
        && r == Ok(200, "Store created successfully")
        && db.stores == old(db.stores) + [Store(old(db.nextStoreId), req.name.value, req.address.value, None, req.ownerId.value)]
      else r == Error(500, "Store creation failed")
    ensures r.Error? ==> db.stores == old(db.stores)
  {
    if req.ownerId.None? {
      return Error(400, "Invalid owner");
    }
    var k := FindUserById(db.users, req.ownerId.value);
    if k.None? || db.users[k.value].role != OWNER {
      return Error(400, "Invalid owner");
    }
    var created := db.CreateStore(req.name, req.address, req.ownerId.value);
    if created.None? {
      return Error(500, "Store creation failed");
    }
    r := Ok(200, "Store created successfully");
  }
}
