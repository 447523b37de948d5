/** backend/src/controllers/ownerController.js: what a store owner sees of their store. */
module OwnerController {
  import opened Base
  import opened Schema
  import opened Sequences
  import opened Ledger
  import opened Tables

  /** `Store.findOne({ where: { ownerId } })`: the first store of that owner. */
  function StoreOfOwner(stores: seq<Store>, ownerId: nat): (k: Option<nat>)
    ensures k.Some? ==> k.value < |stores| && stores[k.value].ownerId == ownerId
    ensures k.Some? ==> forall j | 0 <= j < k.value :: stores[j].ownerId != ownerId
    ensures k.None? <==> forall j | 0 <= j < |stores| :: stores[j].ownerId != ownerId
  {
    if stores == [] then None
    else if stores[0].ownerId == ownerId then Some(0)
    else match StoreOfOwner(stores[1..], ownerId)
      case None => None
      case Some(k) => Some(k + 1)
  }

  /** `getStoreDetails` for the caller `ownerId`. */
  function GetStoreDetails(stores: seq<Store>, ownerId: nat): (r: Response<Store>)
    ensures r.Ok? ==> r.body in stores && r.body.ownerId == ownerId
  {
    match StoreOfOwner(stores, ownerId)
    case None => Error(404, "No store assigned to this owner")
    case Some(k) => Ok(200, stores[k])
  }

  /** The owner gets a store of their own, the first one the table holds for them, and a 404
      exactly when they hold none. */
  lemma GetStoreDetailsSpec(stores: seq<Store>, ownerId: nat)
    ensures GetStoreDetails(stores, ownerId).Error? <==> forall s | s in stores :: s.ownerId != ownerId
    ensures GetStoreDetails(stores, ownerId).Error? ==>
      GetStoreDetails(stores, ownerId) == Error(404, "No store assigned to this owner")
    ensures GetStoreDetails(stores, ownerId).Ok? ==>
      var s := GetStoreDetails(stores, ownerId).body;
      && s in stores && s.ownerId == ownerId
      && exists k | 0 <= k < |stores| :: stores[k] == s && forall j | 0 <= j < k :: stores[j].ownerId != ownerId
  {
    if GetStoreDetails(stores, ownerId).Error? {
      forall s | s in stores ensures s.ownerId != ownerId {
        var j :| 0 <= j < |stores| && stores[j] == s;
      }
    }
  }

  /** The `user` attributes included with each rating. */
  datatype Rater = Rater(name: string, email: string)

  /** One row of `getStoreRatings`: the rating and its rater, when the rater exists. */
  datatype RatingWithRater = RatingWithRater(id: nat, userId: nat, storeId: nat, value: int, user: Option<Rater>)

  function RaterOf(users: seq<User>, userId: nat): Option<Rater>
  {
    match FindUserById(users, userId)
    case None => None
    case Some(k) => Some(Rater(users[k].name, users[k].email))
  }

  function WithRater(r: Rating, users: seq<User>): RatingWithRater
  {
    RatingWithRater(r.id, r.userId, r.storeId, r.value, RaterOf(users, r.userId))
  }

  /** The rows `Rating.findAll` returns for a list of ratings: one per rating, in order,
      each with its rater included. */
  function WithRaters(mine: seq<Rating>, users: seq<User>): (rows: seq<RatingWithRater>)
    ensures |rows| == |mine|
    ensures forall i | 0 <= i < |mine| :: rows[i] == WithRater(mine[i], users)
  {
    seq(|mine|, i requires 0 <= i < |mine| => WithRater(mine[i], users))
  }

  /** `getStoreRatings` for the caller `ownerId`: the ratings of the owner's store, each with
      its rater's name and email. */
  function GetStoreRatings(stores: seq<Store>, users: seq<User>, ratings: seq<Rating>, ownerId: nat)
    : Response<seq<RatingWithRater>>
  {
    match StoreOfOwner(stores, ownerId)
    case None => Error(404, "Store not found")
    case Some(k) => Ok(200, WithRaters(RatingsFor(ratings, stores[k].id), users))
  }

  /** Ids are unique, so a rating of the table has a row exactly when it belongs to the
      store. */
  lemma RowsAreTheStoreRatings(ratings: seq<Rating>, users: seq<User>, stores: seq<Store>, nextRatingId: nat,
                               storeId: nat)
    requires RatingsValid(ratings, users, stores, nextRatingId)
    ensures var rows := WithRaters(RatingsFor(ratings, storeId), users);
      forall r | r in ratings :: r.storeId == storeId <==> exists i | 0 <= i < |rows| :: rows[i].id == r.id
  {
    var mine := RatingsFor(ratings, storeId);
    var rows := WithRaters(mine, users);
    FilterMembership(ratings, (r: Rating) => r.storeId == storeId);
    forall r | r in ratings
      ensures r.storeId == storeId <==> exists i | 0 <= i < |rows| :: rows[i].id == r.id
    {
      if r.storeId == storeId {
        var i :| 0 <= i < |mine| && mine[i] == r;
        assert rows[i].id == r.id;
      } else {
        forall i | 0 <= i < |rows| ensures rows[i].id != r.id {
          assert mine[i] in mine;
          var a :| 0 <= a < |ratings| && ratings[a] == mine[i];
          var b :| 0 <= b < |ratings| && ratings[b] == r;
          if a != b {
            assert ratings[a].id != ratings[b].id;
          }
        }
      }
    }
  }

  /** Under the foreign keys every row names an existing rater, and with unique user ids the
      row carries that user's name and email. */
  lemma RowsCarryRaters(ratings: seq<Rating>, users: seq<User>, stores: seq<Store>, nextUserId: nat,
                        nextRatingId: nat, storeId: nat)
    requires UsersValid(users, nextUserId) && RatingsValid(ratings, users, stores, nextRatingId)
    ensures var rows := WithRaters(RatingsFor(ratings, storeId), users);
      forall i | 0 <= i < |rows| ::
        && (exists u | u in users :: u.id == rows[i].userId)
        && forall u | u in users && u.id == rows[i].userId :: rows[i].user == Some(Rater(u.name, u.email))
  {
    var mine := RatingsFor(ratings, storeId);
    var rows := WithRaters(mine, users);
    forall i | 0 <= i < |rows|
      ensures exists u | u in users :: u.id == rows[i].userId
      ensures forall u | u in users && u.id == rows[i].userId :: rows[i].user == Some(Rater(u.name, u.email))
    {
      assert mine[i] in mine;
      var a :| 0 <= a < |ratings| && ratings[a] == mine[i];
      assert HasUser(users, mine[i].userId);
      var j := FindUserById(users, mine[i].userId).value;
      assert users[j] in users;
      forall u | u in users && u.id == rows[i].userId ensures rows[i].user == Some(Rater(u.name, u.email)) {
        var m :| 0 <= m < |users| && users[m] == u;
        assert m == j;
      }
    }
  }

  /** The rows are exactly the ratings of the owner's store, in table order, and under the
      foreign keys every row carries its rater's name and email. */
  lemma GetStoreRatingsSpec(stores: seq<Store>, users: seq<User>, ratings: seq<Rating>, nextUserId: nat,
                            nextRatingId: nat, ownerId: nat)
    requires UsersValid(users, nextUserId) && RatingsValid(ratings, users, stores, nextRatingId)
    ensures GetStoreRatings(stores, users, ratings, ownerId).Error? <==> StoreOfOwner(stores, ownerId).None?
    ensures GetStoreRatings(stores, users, ratings, ownerId).Error? ==>
      GetStoreRatings(stores, users, ratings, ownerId) == Error(404, "Store not found")
    ensures StoreOfOwner(stores, ownerId).Some? ==>
      var store := stores[StoreOfOwner(stores, ownerId).value];
      var rows := GetStoreRatings(stores, users, ratings, ownerId).body;
      && |rows| == |RatingsFor(ratings, store.id)|
      && (forall i | 0 <= i < |rows| ::
            var r := RatingsFor(ratings, store.id)[i];
            rows[i].id == r.id && rows[i].userId == r.userId && rows[i].value == r.value && rows[i].storeId == store.id)
      && (forall r | r in ratings :: r.storeId == store.id <==> exists i | 0 <= i < |rows| :: rows[i].id == r.id)
      && forall i | 0 <= i < |rows| ::
           && (exists u | u in users :: u.id == rows[i].userId)
           && forall u | u in users && u.id == rows[i].userId :: rows[i].user == Some(Rater(u.name, u.email))
  {
    match StoreOfOwner(stores, ownerId)
    case None =>
    case Some(k) =>
      var mine := RatingsFor(ratings, stores[k].id);
      forall i | 0 <= i < |mine| ensures mine[i].storeId == stores[k].id {
        assert mine[i] in mine;
      }
      RowsAreTheStoreRatings(ratings, users, stores, nextRatingId, stores[k].id);
      RowsCarryRaters(ratings, users, stores, nextUserId, nextRatingId, stores[k].id);
  }

  /** A rating just given to the owner's store appears in the owner's list with the rater
      and the value given. */
  lemma OwnerSeesNewRating(stores: seq<Store>, users: seq<User>, ratings: seq<Rating>, ownerId: nat,
                           userId: nat, value: int, freshId: nat)
    requires StoreOfOwner(stores, ownerId).Some?
    ensures var store := stores[StoreOfOwner(stores, ownerId).value];
      var rows := GetStoreRatings(stores, users, Upsert(ratings, userId, store.id, value, freshId), ownerId).body;
      exists i | 0 <= i < |rows| :: rows[i].userId == userId && rows[i].value == value
  {
    var store := stores[StoreOfOwner(stores, ownerId).value];
    var rs' := Upsert(ratings, userId, store.id, value, freshId);
    UpsertRecordsValue(ratings, userId, store.id, value, freshId);
    var j := FindRating(rs', userId, store.id).value;
    var mine := RatingsFor(rs', store.id);
    FilterMembership(rs', (r: Rating) => r.storeId == store.id);
    assert rs'[j] in mine;
    var i :| 0 <= i < |mine| && mine[i] == rs'[j];
    var rows := GetStoreRatings(stores, users, rs', ownerId).body;
    assert rows[i].userId == userId && rows[i].value == value;
  }
}
