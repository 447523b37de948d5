/** The rating ledger as values: the ratings of one store, the (user, store) lookup used by
    `rateStore`, the upsert it performs, and the mean that both `rateStore` and the
    listings compute (backend/src/controllers/userController.js, adminController.js). */
module Ledger {
  import opened Base
  import opened Schema
  import opened Sequences

  /** `values.reduce((a, b) => a + b, 0)`. */
  function Sum(vs: seq<int>): int
  {
    if vs == [] then 0 else vs[0] + Sum(vs[1..])
  }

  /** The listings' `ratings.length > 0 ? sum / ratings.length : null`. */
  function Mean(vs: seq<int>): (m: Option<real>)
    ensures m.None? <==> vs == []
  {
    if |vs| > 0 then Some(Sum(vs) as real / |vs| as real) else None
  }

  /** The average `rateStore` writes: `sum / ratings.length || 0`. In JavaScript, `0 / 0` is
      `NaN` and `NaN || 0` is `0`; a quotient of `0` also becomes `0`, which changes nothing. */
  function RateStoreAverage(vs: seq<int>): (avg: real)
    ensures vs != [] ==> Mean(vs) == Some(avg)
    ensures vs == [] ==> avg == 0.0
  {
    if |vs| == 0 then 0.0 else Sum(vs) as real / |vs| as real
  }

  predicate AllValid(vs: seq<int>)
  {
    forall i | 0 <= i < |vs| :: ValidRatingValue(vs[i])
  }

  /** A sum of values in 1..5 lies between the count and five times the count. */
  lemma {:induction false} SumBounds(vs: seq<int>)
    requires AllValid(vs)
    ensures |vs| <= Sum(vs) <= 5 * |vs|
  {
    if vs != [] {
      assert AllValid(vs[1..]) by {
        forall i | 0 <= i < |vs[1..]| ensures ValidRatingValue(vs[1..][i]) {
          assert vs[1..][i] == vs[i + 1];
        }
      }
      SumBounds(vs[1..]);
    }
  }

  /** The mean of a non-empty set of ratings is itself a rating between 1 and 5. */
  lemma MeanInRange(vs: seq<int>)
    requires vs != [] && AllValid(vs)
    ensures Mean(vs).Some? && 1.0 <= Mean(vs).value <= 5.0
  {
    SumBounds(vs);
    QuotientBounds(Sum(vs) as real, |vs| as real);
  }

  lemma QuotientBounds(s: real, n: real)
    requires n > 0.0 && n <= s <= 5.0 * n
    ensures 1.0 <= s / n <= 5.0
  {
    DivMono(1.0 * n, s, n);
    DivMono(s, 5.0 * n, n);
    DivSelf(1.0, n);
    DivSelf(5.0, n);
  }

  lemma DivMono(a: real, b: real, n: real)
    requires n > 0.0 && a <= b
    ensures a / n <= b / n
  {
  }

  lemma DivSelf(c: real, n: real)
    requires n > 0.0
    ensures (c * n) / n == c
  {
  }

  /** Once a store has at least one rating, the `|| 0` fallback of `rateStore` never fires:
      the written value is the mean, and it is at least 1. */
  lemma FallbackNeverFires(vs: seq<int>)
    requires vs != [] && AllValid(vs)
    ensures Mean(vs) == Some(RateStoreAverage(vs))
    ensures RateStoreAverage(vs) >= 1.0
  {
    MeanInRange(vs);
  }

  /** The `value` column of a list of ratings, in order. */
  function Values(rs: seq<Rating>): (vs: seq<int>)
    ensures |vs| == |rs|
    ensures forall i | 0 <= i < |rs| :: vs[i] == rs[i].value
  {
    seq(|rs|, i requires 0 <= i < |rs| => rs[i].value)
  }

  /** The ratings whose `storeId` is the given store's id. */
  function RatingsFor(rs: seq<Rating>, storeId: nat): seq<Rating>
  {
    Filter(rs, (r: Rating) => r.storeId == storeId)
  }

  function ValuesFor(rs: seq<Rating>, storeId: nat): seq<int>
  {
    Values(RatingsFor(rs, storeId))
  }

  predicate IsPair(r: Rating, userId: nat, storeId: nat)
  {
    r.userId == userId && r.storeId == storeId
  }

  /** `Rating.findOne({ where: { storeId, userId } })`: the first row for the pair. */
  function FindRating(rs: seq<Rating>, userId: nat, storeId: nat): (k: Option<nat>)
    ensures k.Some? ==> k.value < |rs| && IsPair(rs[k.value], userId, storeId)
    ensures k.Some? ==> forall j | 0 <= j < k.value :: !IsPair(rs[j], userId, storeId)
    ensures k.None? ==> forall j | 0 <= j < |rs| :: !IsPair(rs[j], userId, storeId)
  {
    if rs == [] then None
    else if IsPair(rs[0], userId, storeId) then Some(0)
    else match FindRating(rs[1..], userId, storeId)
      case None => None
      case Some(k) => Some(k + 1)
  }

  /** The ledger invariant: at most one rating per (user, store) pair. */
  ghost predicate OnePerPair(rs: seq<Rating>)
  {
    forall i, j | 0 <= i < j < |rs| :: !IsPair(rs[j], rs[i].userId, rs[i].storeId)
  }

  /** What `rateStore` does to the Ratings table when every step succeeds: update the value
      of the pair's row in place, or append a new row with the next id. */
  function Upsert(rs: seq<Rating>, userId: nat, storeId: nat, value: int, freshId: nat): (rs': seq<Rating>)
    ensures |rs| <= |rs'| <= |rs| + 1
    ensures forall i | 0 <= i < |rs| :: rs'[i].id == rs[i].id && rs'[i].userId == rs[i].userId && rs'[i].storeId == rs[i].storeId
  {
    match FindRating(rs, userId, storeId)
    case None => rs + [Rating(freshId, userId, storeId, value)]
    case Some(k) => rs[k := rs[k].(value := value)]
  }

  /** After an upsert the pair has a rating with the new value; it was inserted only if
      absent, so the ledger stays one-per-pair and that rating is the only one. */
  lemma UpsertRecordsValue(rs: seq<Rating>, userId: nat, storeId: nat, value: int, freshId: nat)
    ensures var rs' := Upsert(rs, userId, storeId, value, freshId);
      && |rs'| == |rs| + (if FindRating(rs, userId, storeId).None? then 1 else 0)
      && FindRating(rs', userId, storeId).Some?
      && rs'[FindRating(rs', userId, storeId).value].value == value
    ensures var rs' := Upsert(rs, userId, storeId, value, freshId);
      OnePerPair(rs) ==>
        && OnePerPair(rs')
        && forall j | 0 <= j < |rs'| && IsPair(rs'[j], userId, storeId) ::
             j == FindRating(rs', userId, storeId).value
  {
    var rs' := Upsert(rs, userId, storeId, value, freshId);
    match FindRating(rs, userId, storeId)
    case None =>
      assert IsPair(rs'[|rs|], userId, storeId);
    case Some(k) =>
      assert IsPair(rs'[k], userId, storeId);
      assert forall j | 0 <= j < |rs| :: rs'[j].userId == rs[j].userId && rs'[j].storeId == rs[j].storeId;
  }

  /** The ratings of every other (user, store) pair, in order. */
  function OtherPairs(rs: seq<Rating>, userId: nat, storeId: nat): seq<Rating>
  {
    Filter(rs, (r: Rating) => !IsPair(r, userId, storeId))
  }

  /** An upsert leaves every rating of every other pair exactly as it was. */
  lemma UpsertKeepsOtherPairs(rs: seq<Rating>, userId: nat, storeId: nat, value: int, freshId: nat)
    ensures OtherPairs(Upsert(rs, userId, storeId, value, freshId), userId, storeId) == OtherPairs(rs, userId, storeId)
  {
    var p := (r: Rating) => !IsPair(r, userId, storeId);
    match FindRating(rs, userId, storeId)
    case None =>
      var added := Rating(freshId, userId, storeId, value);
      FilterAppend(rs, [added], p);
      assert Filter([added], p) == [];
    case Some(k) =>
      FilterUpdateSkipped(rs, k, rs[k].(value := value), p);
  }

  /** An upsert for one store leaves the ratings of every other store exactly as they were. */
  lemma UpsertKeepsOtherStores(rs: seq<Rating>, userId: nat, storeId: nat, value: int, freshId: nat, other: nat)
    requires other != storeId
    ensures RatingsFor(Upsert(rs, userId, storeId, value, freshId), other) == RatingsFor(rs, other)
  {
    var p := (r: Rating) => r.storeId == other;
    match FindRating(rs, userId, storeId)
    case None =>
      var added := Rating(freshId, userId, storeId, value);
      FilterAppend(rs, [added], p);
      assert Filter([added], p) == [];
    case Some(k) =>
      FilterUpdateSkipped(rs, k, rs[k].(value := value), p);
  }

  /** After an upsert the rated store has at least one rating. */
  lemma UpsertRatedStoreNonEmpty(rs: seq<Rating>, userId: nat, storeId: nat, value: int, freshId: nat)
    ensures RatingsFor(Upsert(rs, userId, storeId, value, freshId), storeId) != []
  {
    var rs' := Upsert(rs, userId, storeId, value, freshId);
    UpsertRecordsValue(rs, userId, storeId, value, freshId);
    var k := FindRating(rs', userId, storeId).value;
    FilterKeeps(rs', (r: Rating) => r.storeId == storeId, rs'[k]);
  }

  /** `Store.update({ averageRating: avg }, { where: { id: storeId } })`. */
  function SetAverage(stores: seq<Store>, storeId: nat, avg: real): seq<Store>
  {
    seq(|stores|, i requires 0 <= i < |stores| =>
      if stores[i].id == storeId then stores[i].(averageRating := Some(avg)) else stores[i])
  }

  /** The derived-column invariant: every store's `averageRating` is the mean of its
      ratings, or null when it has none. */
  ghost predicate AveragesCurrent(stores: seq<Store>, rs: seq<Rating>)
  {
    forall i | 0 <= i < |stores| :: stores[i].averageRating == Mean(ValuesFor(rs, stores[i].id))
  }

  /** The upsert followed by the recomputation restores the derived-column invariant: the
      rated store gets the mean of its ratings, and no other store's ratings changed. */
  lemma RateKeepsAveragesCurrent(stores: seq<Store>, rs: seq<Rating>, userId: nat, storeId: nat, value: int, freshId: nat)
    requires AveragesCurrent(stores, rs)
    ensures var rs' := Upsert(rs, userId, storeId, value, freshId);
      AveragesCurrent(SetAverage(stores, storeId, RateStoreAverage(ValuesFor(rs', storeId))), rs')
  {
    var rs' := Upsert(rs, userId, storeId, value, freshId);
    var stores' := SetAverage(stores, storeId, RateStoreAverage(ValuesFor(rs', storeId)));
    UpsertRatedStoreNonEmpty(rs, userId, storeId, value, freshId);
    forall i | 0 <= i < |stores'|
      ensures stores'[i].averageRating == Mean(ValuesFor(rs', stores'[i].id))
    {
      if stores[i].id != storeId {
        UpsertKeepsOtherStores(rs, userId, storeId, value, freshId, stores[i].id);
      }
    }
  }
}
