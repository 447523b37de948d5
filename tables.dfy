/** The three tables as the fields of one storage object, with the Sequelize operations the
    controllers perform on them and the constraints the database enforces on each write. */
module Tables {
  import opened Base
  import opened Schema
  import opened Sequences
  import opened Ledger

  predicate HasUser(users: seq<User>, id: nat)
  {
    exists k | 0 <= k < |users| :: users[k].id == id
  }

  predicate HasStore(stores: seq<Store>, id: nat)
  {
    exists k | 0 <= k < |stores| :: stores[k].id == id
  }

  predicate EmailTaken(users: seq<User>, email: string)
  {
    exists k | 0 <= k < |users| :: users[k].email == email
  }

  /** The user with this id exists and has role OWNER. */
  predicate IsOwner(users: seq<User>, id: nat)
  {
    exists k | 0 <= k < |users| :: users[k].id == id && users[k].role == OWNER
  }

  /** `User.findOne({ where: { email } })`. */
  function FindUserByEmail(users: seq<User>, email: string): (k: Option<nat>)
    ensures k.Some? ==> k.value < |users| && users[k.value].email == email
    ensures k.None? <==> !EmailTaken(users, email)
  {
    if users == [] then None
    else if users[0].email == email then Some(0)
    else match FindUserByEmail(users[1..], email)
      case None => (assert forall k | 1 <= k < |users| :: users[k] == users[1..][k - 1]; None)
      case Some(k) => Some(k + 1)
  }

  /** `User.findByPk(id)`. */
  function FindUserById(users: seq<User>, id: nat): (k: Option<nat>)
    ensures k.Some? ==> k.value < |users| && users[k.value].id == id
    ensures k.None? <==> !HasUser(users, id)
  {
    if users == [] then None
    else if users[0].id == id then Some(0)
    else match FindUserById(users[1..], id)
      case None => (assert forall k | 1 <= k < |users| :: users[k] == users[1..][k - 1]; None)
      case Some(k) => Some(k + 1)
  }

  /** Users: ids increase with insertion order and stay below the sequence counter; the
      `unique: true` index on email holds. */
  ghost predicate UsersValid(users: seq<User>, nextId: nat)
  {
    && (forall i, j | 0 <= i < j < |users| :: users[i].id < users[j].id && users[i].email != users[j].email)
    && (forall i | 0 <= i < |users| :: users[i].id < nextId)
  }

  /** Stores: ids as for users; `ownerId` is a foreign key into Users. */
  ghost predicate StoresValid(stores: seq<Store>, users: seq<User>, nextId: nat)
  {
    && (forall i, j | 0 <= i < j < |stores| :: stores[i].id < stores[j].id)
    && (forall i | 0 <= i < |stores| :: stores[i].id < nextId && HasUser(users, stores[i].ownerId))
  }

  /** Ratings: ids as for users; the value validator; `userId` and `storeId` are foreign keys. */
  ghost predicate RatingsValid(rs: seq<Rating>, users: seq<User>, stores: seq<Store>, nextId: nat)
  {
    && (forall i, j | 0 <= i < j < |rs| :: rs[i].id < rs[j].id)
    && (forall i | 0 <= i < |rs| ::
          rs[i].id < nextId && ValidRatingValue(rs[i].value)
          && HasUser(users, rs[i].userId) && HasStore(stores, rs[i].storeId))
  }

  /** Every store is owned by a user whose role is OWNER. */
  ghost predicate OwnedByOwners(stores: seq<Store>, users: seq<User>)
  {
    forall i | 0 <= i < |stores| :: IsOwner(users, stores[i].ownerId)
  }

  /** Not-null and width constraints of a User row. */
  predicate UserRowFits(name: Option<string>, email: Option<string>, address: Option<string>)
  {
    && name.Some? && |name.value| <= UserNameWidth
    && email.Some? && |email.value| <= UserEmailWidth
    && address.Some? && |address.value| <= UserAddressWidth
  }

  /** Not-null and width constraints of a Store row. */
  predicate StoreRowFits(name: Option<string>, address: Option<string>)
  {
    && name.Some? && |name.value| <= StoreNameWidth
    && address.Some? && |address.value| <= StoreAddressWidth
  }

  lemma AppendKeepsUser(users: seq<User>, u: User, id: nat)
    requires HasUser(users, id)
    ensures HasUser(users + [u], id)
  {
    var k :| 0 <= k < |users| && users[k].id == id;
    assert (users + [u])[k] == users[k];
  }

  lemma AppendKeepsOwner(users: seq<User>, u: User, id: nat)
    requires IsOwner(users, id)
    ensures IsOwner(users + [u], id)
  {
    var k :| 0 <= k < |users| && users[k].id == id && users[k].role == OWNER;
    assert (users + [u])[k] == users[k];
  }

  lemma AppendKeepsStore(stores: seq<Store>, s: Store, id: nat)
    requires HasStore(stores, id)
    ensures HasStore(stores + [s], id)
  {
    var k :| 0 <= k < |stores| && stores[k].id == id;
    assert (stores + [s])[k] == stores[k];
  }

  /** The mean of a store's ratings is null exactly when no rating names the store, and
      otherwise lies between 1 and 5. */
  lemma StoreMeanSpec(rs: seq<Rating>, users: seq<User>, stores: seq<Store>, nextRatingId: nat, storeId: nat)
    requires RatingsValid(rs, users, stores, nextRatingId)
    ensures Mean(ValuesFor(rs, storeId)).None? <==> forall r | r in rs :: r.storeId != storeId
    ensures Mean(ValuesFor(rs, storeId)).Some? ==> 1.0 <= Mean(ValuesFor(rs, storeId)).value <= 5.0
  {
    var mine := RatingsFor(rs, storeId);
    FilterMembership(rs, (r: Rating) => r.storeId == storeId);
    if mine != [] {
      assert mine[0] in mine;
    }
    assert AllValid(Values(mine)) by {
      forall j | 0 <= j < |mine| ensures ValidRatingValue(Values(mine)[j]) {
        assert mine[j] in mine;
        var k :| 0 <= k < |rs| && rs[k] == mine[j];
      }
    }
    if mine != [] {
      MeanInRange(Values(mine));
    }
  }

  /** The alias under which `Store.hasMany(Rating)` is declared. */
  const RatingsAlias: string := "ratings"

  /** Whether `include: [{ model: Rating, as: includeAs }]` resolves against that
      association: an aliased association is found only under its alias; any other include
      makes the query raise before it runs. */
  predicate IncludeResolves(includeAs: Option<string>)
  {
    includeAs == Some(RatingsAlias)
  }

  /** A store row with a fresh id and no average keeps every table invariant: no rating can
      name its id yet, so its null average is already the mean of its (no) ratings. */
  lemma AddStoreKeepsTables(users: seq<User>, stores: seq<Store>, rs: seq<Rating>, s: Store,
                            nextStoreId: nat, nextRatingId: nat)
    requires StoresValid(stores, users, nextStoreId) && RatingsValid(rs, users, stores, nextRatingId)
    requires s.id == nextStoreId && HasUser(users, s.ownerId) && s.averageRating.None?
    ensures StoresValid(stores + [s], users, nextStoreId + 1)
    ensures RatingsValid(rs, users, stores + [s], nextRatingId)
    ensures AveragesCurrent(stores, rs) ==> AveragesCurrent(stores + [s], rs)
    ensures OwnedByOwners(stores, users) && IsOwner(users, s.ownerId) ==> OwnedByOwners(stores + [s], users)
  {
    forall i | 0 <= i < |rs| ensures HasStore(stores + [s], rs[i].storeId) {
      AppendKeepsStore(stores, s, rs[i].storeId);
    }
    FilterNone(rs, (r: Rating) => r.storeId == s.id);
    assert ValuesFor(rs, s.id) == [];
  }

  class Database {
    var users: seq<User>
    var stores: seq<Store>
    var ratings: seq<Rating>
    var nextUserId: nat
    var nextStoreId: nat
    var nextRatingId: nat

    /** What the database itself enforces. */
    ghost predicate Valid()
      reads this
    {
      && UsersValid(users, nextUserId)
      && StoresValid(stores, users, nextStoreId)
      && RatingsValid(ratings, users, stores, nextRatingId)
    }

    /** What the application is meant to maintain on top: one rating per (user, store) pair,
        every store's `averageRating` equal to the mean of its ratings, and every store
        owned by an OWNER. */
    ghost predicate Consistent()
      reads this
    {
      && OnePerPair(ratings)
      && AveragesCurrent(stores, ratings)
      && OwnedByOwners(stores, users)
    }

    constructor ()
      ensures Valid() && Consistent()
      ensures users == [] && stores == [] && ratings == []
    {
      users, stores, ratings := [], [], [];
      nextUserId, nextStoreId, nextRatingId := 1, 1, 1;
    }

    /** `User.create(...)`: fails on a missing or over-wide column or a taken email,
        otherwise appends the row under the next id. */
    method CreateUser(name: Option<string>, email: Option<string>, address: Option<string>,
                      password: PasswordHash, role: Role)
      returns (created: Option<User>)
      requires Valid()
      modifies this
      ensures Valid()
      ensures created.Some? <==> UserRowFits(name, email, address) && !EmailTaken(old(users), email.value)
      ensures created.Some? ==>
        && created.value == User(old(nextUserId), name.value, email.value, password, address.value, role)
        && users == old(users) + [created.value]
      ensures created.None? ==> users == old(users)
      ensures created.Some? ==> nextUserId == old(nextUserId) + 1
      ensures stores == old(stores) && ratings == old(ratings)
      ensures nextStoreId == old(nextStoreId) && nextRatingId == old(nextRatingId)
      ensures old(Consistent()) ==> Consistent()
    {
      if !UserRowFits(name, email, address) || FindUserByEmail(users, email.value).Some? {
        return None;
      }
      var u := User(nextUserId, name.value, email.value, password, address.value, role);
      forall i | 0 <= i < |stores| ensures HasUser(users + [u], stores[i].ownerId) {
        AppendKeepsUser(users, u, stores[i].ownerId);
      }
      forall i | 0 <= i < |ratings| ensures HasUser(users + [u], ratings[i].userId) {
        AppendKeepsUser(users, u, ratings[i].userId);
      }
      forall i | 0 <= i < |stores| && IsOwner(users, stores[i].ownerId)
        ensures IsOwner(users + [u], stores[i].ownerId)
      {
        AppendKeepsOwner(users, u, stores[i].ownerId);
      }
      users := users + [u];
      nextUserId := nextUserId + 1;
      created := Some(u);
    }

    /** `Store.create(...)`: fails on a missing or over-wide column or an `ownerId` that is
        no user, otherwise appends the row, with a null `averageRating`, under the next id. */
    method CreateStore(name: Option<string>, address: Option<string>, ownerId: nat)
      returns (created: Option<Store>)
      requires Valid()
      modifies this
      ensures Valid()
      ensures created.Some? <==> StoreRowFits(name, address) && HasUser(old(users), ownerId)
      ensures created.Some? ==>
        && created.value == Store(old(nextStoreId), name.value, address.value, None, ownerId)
        && stores == old(stores) + [created.value]
      ensures created.None? ==> stores == old(stores)
      ensures created.Some? ==> nextStoreId == old(nextStoreId) + 1
      ensures users == old(users) && ratings == old(ratings)
      ensures nextUserId == old(nextUserId) && nextRatingId == old(nextRatingId)
      ensures old(Consistent()) && IsOwner(old(users), ownerId) ==> Consistent()
    {
      if !StoreRowFits(name, address) || FindUserById(users, ownerId).None? {
        return None;
      }
      var s := Store(nextStoreId, name.value, address.value, None, ownerId);
      AddStoreKeepsTables(users, stores, ratings, s, nextStoreId, nextRatingId);
      stores := stores + [s];
      nextStoreId := nextStoreId + 1;
      created := Some(s);
    }

    /** `Rating.create({ storeId, userId, value })`: the value validator and both foreign
        keys are checked, then the row is appended under the next id. */
    method CreateRating(userId: nat, storeId: nat, value: int) returns (ok: bool)
      requires Valid()
      modifies this
      ensures Valid()
      ensures ok <==> ValidRatingValue(value) && HasUser(old(users), userId) && HasStore(old(stores), storeId)
      ensures ok ==> ratings == old(ratings) + [Rating(old(nextRatingId), userId, storeId, value)]
      ensures !ok ==> ratings == old(ratings)
      ensures ok ==> nextRatingId == old(nextRatingId) + 1
      ensures users == old(users) && stores == old(stores)
      ensures nextUserId == old(nextUserId) && nextStoreId == old(nextStoreId)
    {
      if !ValidRatingValue(value) || FindUserById(users, userId).None? {
        return false;
      }
      if !HasStore(stores, storeId) {
        return false;
      }
      ratings := ratings + [Rating(nextRatingId, userId, storeId, value)];
      nextRatingId := nextRatingId + 1;
      ok := true;
    }

    /** `rating.value = value; await rating.save()` on the row at index `k`: the value
        validator runs before the row is written. */
    method SaveRatingValue(k: nat, value: int) returns (ok: bool)
      requires Valid() && k < |ratings|
      modifies this
      ensures Valid()
      ensures ok <==> ValidRatingValue(value)
      ensures ok ==> ratings == old(ratings)[k := old(ratings)[k].(value := value)]
      ensures !ok ==> ratings == old(ratings)
      ensures users == old(users) && stores == old(stores)
      ensures nextUserId == old(nextUserId) && nextStoreId == old(nextStoreId) && nextRatingId == old(nextRatingId)
    {
      if !ValidRatingValue(value) {
        return false;
      }
      ratings := ratings[k := ratings[k].(value := value)];
      ok := true;
    }

    /** `Store.update({ averageRating: avg }, { where: { id: storeId } })`. */
    method UpdateStoreAverage(storeId: nat, avg: real)
      requires Valid()
      modifies this
      ensures Valid()
      ensures stores == SetAverage(old(stores), storeId, avg)
      ensures users == old(users) && ratings == old(ratings)
      ensures nextUserId == old(nextUserId) && nextStoreId == old(nextStoreId) && nextRatingId == old(nextRatingId)
    {
      var stores' := SetAverage(stores, storeId, avg);
      forall i | 0 <= i < |ratings| ensures HasStore(stores', ratings[i].storeId) {
        var k :| 0 <= k < |stores| && stores[k].id == ratings[i].storeId;
        assert stores'[k].id == stores[k].id;
      }
      stores := stores';
    }
  }
}
