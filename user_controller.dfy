/** backend/src/controllers/userController.js: the user's store listing and `rateStore`. */
module UserController {
  import opened Base
  import opened Text
  import opened Schema
  import opened Sequences
  import opened Ledger
  import opened Tables

  /** One entry of the `GET /user/stores` response. */
  datatype UserStoreView = UserStoreView(id: nat, name: string, address: string,
                                         averageRating: Option<real>, userRating: Option<int>)

  /** `name LIKE %search% OR address LIKE %search%`, as a plain substring test. */
  predicate MatchesSearch(s: Store, search: string)
  {
    Contains(s.name, search) || Contains(s.address, search)
  }

  /** The stores the `where` clause selects: all of them unless `search` is truthy. */
  function SearchStores(stores: seq<Store>, search: Option<string>): (selected: seq<Store>)
    ensures forall s | s in selected :: s in stores && (Truthy(search) ==> MatchesSearch(s, search.value))
  {
    if Truthy(search) then Filter(stores, (s: Store) => MatchesSearch(s, search.value)) else stores
  }

  /** `store.Ratings.find((r) => r.userId === userId)`. */
  function FindByUser(rs: seq<Rating>, userId: nat): (r: Option<Rating>)
    ensures r.Some? ==> r.value in rs && r.value.userId == userId
    ensures r.None? ==> forall x | x in rs :: x.userId != userId
  {
    if rs == [] then None
    else if rs[0].userId == userId then Some(rs[0])
    else FindByUser(rs[1..], userId)
  }

  /** `... ?.value || null`: a falsy value (none here, as values are 1..5) reads as null. */
  function OwnRating(rs: seq<Rating>, userId: nat): (own: Option<int>)
    ensures own.Some? ==> exists r | r in rs :: r.userId == userId && r.value == own.value
  {
    match FindByUser(rs, userId)
    case None => None
    case Some(r) => if r.value != 0 then Some(r.value) else None
  }

  function ViewFor(s: Store, ratings: seq<Rating>, userId: nat): UserStoreView
  {
    var mine := RatingsFor(ratings, s.id);
    UserStoreView(s.id, s.name, s.address, Mean(Values(mine)), OwnRating(mine, userId))
  }

  /** `getStoresWithRatings`: the selected stores, each with the mean of its ratings and the
      caller's own rating. */
  function StoresWithRatings(stores: seq<Store>, ratings: seq<Rating>, userId: nat, search: Option<string>)
    : (views: seq<UserStoreView>)
    ensures |views| == |SearchStores(stores, search)|
    ensures forall i | 0 <= i < |views| ::
      var s := SearchStores(stores, search)[i];
      views[i].id == s.id && views[i].name == s.name && views[i].address == s.address
  {
    var selected := SearchStores(stores, search);
    seq(|selected|, i requires 0 <= i < |selected| => ViewFor(selected[i], ratings, userId))
  }

  /** The `getStoresWithRatings` handler around the listing, for a given eager-load alias:
      the source's include names none, the association is declared under "ratings". */
  function GetStoresWithRatings(stores: seq<Store>, ratings: seq<Rating>, userId: nat, search: Option<string>,
                                includeAs: Option<string>): Response<seq<UserStoreView>>
  {
    if IncludeResolves(includeAs) then Ok(200, StoresWithRatings(stores, ratings, userId, search))
    else Error(500, "Failed to fetch stores")
  }

  /** As written (no alias in the include) the handler answers 500 whatever the tables hold. */
  lemma StoreListingAsWritten(stores: seq<Store>, ratings: seq<Rating>, userId: nat, search: Option<string>)
    ensures GetStoresWithRatings(stores, ratings, userId, search, None) == Error(500, "Failed to fetch stores")
  {
  }

  /** With the include under the association's alias the handler lists the selected stores,
      one entry per store, in table order. */
  lemma StoreListingCorrected(stores: seq<Store>, ratings: seq<Rating>, userId: nat, search: Option<string>)
    ensures var r := GetStoresWithRatings(stores, ratings, userId, search, Some(RatingsAlias));
      && r.Ok? && r.status == 200
      && |r.body| == |SearchStores(stores, search)|
      && forall i | 0 <= i < |r.body| :: r.body[i].id == SearchStores(stores, search)[i].id
  {
  }

  /** With a truthy search, a store is listed iff its name or its address contains the
      search text; without one, every store is listed; either way the table order is kept. */
  lemma SearchSelects(stores: seq<Store>, search: Option<string>)
    ensures !Truthy(search) ==> SearchStores(stores, search) == stores
    ensures Truthy(search) ==>
      forall s :: s in SearchStores(stores, search) <==> s in stores && MatchesSearch(s, search.value)
    ensures IsSubsequence(SearchStores(stores, search), stores)
  {
    if Truthy(search) {
      FilterMembership(stores, (s: Store) => MatchesSearch(s, search.value));
      FilterIsSubsequence(stores, (s: Store) => MatchesSearch(s, search.value));
    } else {
      SubsequenceOfItself(stores);
    }
  }

  lemma {:induction false} SubsequenceOfItself<T>(s: seq<T>)
    ensures IsSubsequence(s, s)
  {
    if s != [] {
      SubsequenceOfItself(s[1..]);
    }
  }

  /** The listed average is null exactly when the store has no ratings, and otherwise a
      number between 1 and 5; when the stored column is current, the two agree. */
  lemma ListedAverage(stores: seq<Store>, users: seq<User>, ratings: seq<Rating>, nextRatingId: nat,
                      userId: nat, search: Option<string>, i: nat)
    requires RatingsValid(ratings, users, stores, nextRatingId)
    requires i < |StoresWithRatings(stores, ratings, userId, search)|
    ensures var v := StoresWithRatings(stores, ratings, userId, search)[i];
      && (v.averageRating.None? <==> forall r | r in ratings :: r.storeId != v.id)
      && (v.averageRating.Some? ==> 1.0 <= v.averageRating.value <= 5.0)
    ensures var v := StoresWithRatings(stores, ratings, userId, search)[i];
      AveragesCurrent(stores, ratings) ==> v.averageRating == SearchStores(stores, search)[i].averageRating
  {
    var s := SearchStores(stores, search)[i];
    StoreMeanSpec(ratings, users, stores, nextRatingId, s.id);
    if AveragesCurrent(stores, ratings) {
      SearchSelects(stores, search);
      if Truthy(search) {
        assert s in stores;
      }
    }
  }

  /** The caller's own rating is `v` exactly when the ledger holds the caller's rating of
      that store with value `v`; it is null exactly when the caller has not rated it. */
  lemma OwnRatingSpec(ratings: seq<Rating>, users: seq<User>, stores: seq<Store>, nextRatingId: nat,
                      userId: nat, storeId: nat, v: int)
    requires RatingsValid(ratings, users, stores, nextRatingId) && OnePerPair(ratings)
    ensures OwnRating(RatingsFor(ratings, storeId), userId) == Some(v)
            <==> exists k | 0 <= k < |ratings| :: IsPair(ratings[k], userId, storeId) && ratings[k].value == v
    ensures OwnRating(RatingsFor(ratings, storeId), userId).None?
            <==> FindRating(ratings, userId, storeId).None?
  {
    var mine := RatingsFor(ratings, storeId);
    FilterMembership(ratings, (r: Rating) => r.storeId == storeId);
    match FindByUser(mine, userId)
    case None =>
    case Some(r) =>
      var k :| 0 <= k < |ratings| && ratings[k] == r;
      assert IsPair(ratings[k], userId, storeId);
  }

  /** The upsert and the recomputation of the rated store's average together keep the
      ledger consistent. */
  lemma RateKeepsConsistent(users: seq<User>, stores: seq<Store>, rs: seq<Rating>,
                            userId: nat, storeId: nat, value: int, freshId: nat)
    requires OnePerPair(rs) && AveragesCurrent(stores, rs) && OwnedByOwners(stores, users)
    ensures var rs' := Upsert(rs, userId, storeId, value, freshId);
      var stores' := SetAverage(stores, storeId, RateStoreAverage(ValuesFor(rs', storeId)));
      OnePerPair(rs') && AveragesCurrent(stores', rs') && OwnedByOwners(stores', users)
  {
    UpsertRecordsValue(rs, userId, storeId, value, freshId);
    RateKeepsAveragesCurrent(stores, rs, userId, storeId, value, freshId);
  }

  /** `rateStore(storeId, value)` for the caller `userId`: look up the caller's rating of the
      store, update its value in place or create it, then recompute the store's average over
      all of its ratings and write it to the Stores table. Any failing step (the value
      validator, a foreign key) answers 500 "Failed to submit rating" with nothing written. */
  method RateStore(db: Database, storeId: nat, value: int, userId: nat) returns (r: Response<real>)
    requires db.Valid()
    modifies db
    ensures db.Valid()
    ensures db.users == old(db.users)
    ensures r.Ok? <==> ValidRatingValue(value) && HasUser(old(db.users), userId) && HasStore(old(db.stores), storeId)
    ensures r.Error? ==>
      && r == Error(500, "Failed to submit rating")
      && db.ratings == old(db.ratings) && db.stores == old(db.stores)
    ensures r.Ok? ==>
      && db.ratings == Upsert(old(db.ratings), userId, storeId, value, old(db.nextRatingId))
      && RatingsFor(db.ratings, storeId) != []
      && r == Ok(200, RateStoreAverage(ValuesFor(db.ratings, storeId)))
      && Mean(ValuesFor(db.ratings, storeId)) == Some(r.body)
      && db.stores == SetAverage(old(db.stores), storeId, r.body)
      && db.nextRatingId == old(db.nextRatingId) + (if FindRating(old(db.ratings), userId, storeId).None? then 1 else 0)
    ensures db.nextUserId == old(db.nextUserId) && db.nextStoreId == old(db.nextStoreId)
    ensures old(db.Consistent()) ==> db.Consistent()
  {
    ghost var stores0, ratings0, next0 := db.stores, db.ratings, db.nextRatingId;
    var existing := FindRating(db.ratings, userId, storeId);
    var ok;
    if existing.None? {
      ok := db.CreateRating(userId, storeId, value);
    } else {
      ghost var row := db.ratings[existing.value];
      assert HasUser(db.users, row.userId) && HasStore(db.stores, row.storeId);
      ok := db.SaveRatingValue(existing.value, value);
    }
    if !ok {
      return Error(500, "Failed to submit rating");
    }
    assert db.ratings == Upsert(ratings0, userId, storeId, value, next0);
    UpsertRatedStoreNonEmpty(ratings0, userId, storeId, value, next0);
    var avg := RateStoreAverage(ValuesFor(db.ratings, storeId));
    db.UpdateStoreAverage(storeId, avg);
    if OnePerPair(ratings0) && AveragesCurrent(stores0, ratings0) && OwnedByOwners(stores0, db.users) {
      RateKeepsConsistent(db.users, stores0, ratings0, userId, storeId, value, next0);
    }
    r := Ok(200, avg);
  }
}
