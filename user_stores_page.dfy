/** frontend1/src/pages/UserStores.js: the user's store list, its search box, the rating
    colours and the star widget. */
module UserStoresPage {
  import opened Base
  import opened Text
  import opened Sequences
  import opened UserController

  /** A store passes the box's filter when its lower-cased name or address contains the
      lower-cased search text. */
  predicate MatchesFilter(s: UserStoreView, search: string)
  {
    Contains(ToLower(s.name), ToLower(search)) || Contains(ToLower(s.address), ToLower(search))
  }

  /** `search ? stores.filter(...) : stores`. */
  function FilterStores(stores: seq<UserStoreView>, search: string): (shown: seq<UserStoreView>)
    ensures |shown| <= |stores|
  {
    if search != "" then Filter(stores, (s: UserStoreView) => MatchesFilter(s, search)) else stores
  }

  /** An empty search keeps every store; otherwise a store is kept exactly when it matches,
      and the order of the list is kept either way. */
  lemma FilterStoresSpec(stores: seq<UserStoreView>, search: string)
    ensures search == "" ==> FilterStores(stores, search) == stores
    ensures search != "" ==>
      forall s :: s in FilterStores(stores, search) <==> s in stores && MatchesFilter(s, search)
    ensures IsSubsequence(FilterStores(stores, search), stores)
  {
    if search != "" {
      FilterMembership(stores, (s: UserStoreView) => MatchesFilter(s, search));
      FilterIsSubsequence(stores, (s: UserStoreView) => MatchesFilter(s, search));
    } else {
      SubsequenceOfItself(stores);
    }
  }

  /** The filter ignores the case of the search text. */
  lemma FilterIgnoresCase(stores: seq<UserStoreView>, search: string)
    ensures FilterStores(stores, ToLower(search)) == FilterStores(stores, search)
  {
    ToLowerIdempotent(search);
    if search != "" {
      assert ToLower(search)[0] == LowerChar(search[0]);
      FilterExtensional(stores, (s: UserStoreView) => MatchesFilter(s, ToLower(search)),
                                (s: UserStoreView) => MatchesFilter(s, search));
    }
  }

  const Grey: string := "#94a3b8"
  const Green: string := "#10b981"
  const Amber: string := "#f59e0b"
  const Red: string := "#ef4444"

  /** `getRatingColor`: grey for a missing or zero rating, then green, amber or red by band. */
  function RatingColor(rating: Option<real>): string
  {
    if rating.None? || rating.value == 0.0 then Grey
    else if rating.value >= 4.5 then Green
    else if rating.value >= 3.5 then Amber
    else Red
  }

  /** The colours in the order of the ratings they stand for. */
  function ColorRank(color: string): nat
  {
    if color == Green then 3 else if color == Amber then 2 else if color == Red then 1 else 0
  }

  /** A listed average of a rated store (always in 1..5) is never grey, and a higher average
      never gets a lower colour. */
  lemma RatingColorSpec(a: real, b: real)
    requires 1.0 <= a <= b <= 5.0
    ensures RatingColor(Some(a)) != Grey && RatingColor(Some(b)) != Grey
    ensures ColorRank(RatingColor(Some(a))) <= ColorRank(RatingColor(Some(b)))
    ensures RatingColor(None) == Grey
  {
  }

  /** `!!store.userRating`. */
  predicate HasRated(s: UserStoreView)
  {
    s.userRating.Some? && s.userRating.value != 0
  }

  /** `hoverRating || selectedRating[storeId] || currentRating || 0`. */
  function DisplayRating(hover: int, selected: Option<int>, current: Option<int>): (d: int)
    ensures d == 0 || d == hover || (selected.Some? && d == selected.value) || (current.Some? && d == current.value)
  {
    if hover != 0 then hover
    else if selected.Some? && selected.value != 0 then selected.value
    else if current.Some? && current.value != 0 then current.value
    else 0
  }

  /** Star `star` (1..5) is drawn filled when it is at most the displayed rating. */
  predicate StarFilled(star: int, display: int)
  {
    star <= display
  }

  /** `selectedRating[storeId]`: the star last clicked for the store, undefined before. */
  function SelectedFor(selected: map<nat, int>, storeId: nat): Option<int>
  {
    if storeId in selected then Some(selected[storeId]) else None
  }

  /** The widget of `store` as the page draws it: the displayed rating for the hovered star,
      the page's selections and the store's own rating. */
  function WidgetDisplay(hover: int, selected: map<nat, int>, store: UserStoreView): int
  {
    DisplayRating(hover, SelectedFor(selected, store.id), store.userRating)
  }

  /** A request the star widget makes when clicked. */
  datatype RatingCall = SubmitRating(storeId: nat, value: int) | UpdateRating(storeId: nat, value: int)

  /** The page's state. */
  class Page {
    var stores: seq<UserStoreView>
    var search: string
    var refresh: bool
    var selectedRating: map<nat, int>

    constructor ()
      ensures stores == [] && search == "" && !refresh && selectedRating == map[]
    {
      stores, search, refresh, selectedRating := [], "", false, map[];
    }

    /** `load`: the list fetched for the current search, filtered by it. The fetched list is
        a parameter. */
    method Load(fetched: seq<UserStoreView>)
      modifies this
      ensures stores == FilterStores(fetched, search)
      ensures search == old(search) && refresh == old(refresh) && selectedRating == old(selectedRating)
    {
      stores := FilterStores(fetched, search);
    }

    /** `submitRating` and `updateRating`: nothing for a falsy value; otherwise the handler
        waits, alerts and flips `refresh`, which reloads the list. The network call is
        commented out in the source, so no rating leaves this page. */
    method SendRating(call: RatingCall) returns (sent: bool)
      modifies this
      ensures sent <==> call.value != 0
      ensures refresh == (if sent then !old(refresh) else old(refresh))
      ensures stores == old(stores) && search == old(search) && selectedRating == old(selectedRating)
    {
      if call.value == 0 {
        return false;
      }
      refresh := !refresh;
      sent := true;
    }

    /** The star's `onClick`: remember the chosen star for the store, then update the rating
        when the store is already rated and submit one otherwise. */
    method ClickStar(store: UserStoreView, star: int) returns (call: RatingCall, sent: bool)
      modifies this
      ensures selectedRating == old(selectedRating)[store.id := star]
      ensures call == if HasRated(store) then UpdateRating(store.id, star) else SubmitRating(store.id, star)
      ensures sent <==> star != 0
      ensures refresh == (if sent then !old(refresh) else old(refresh))
      ensures stores == old(stores) && search == old(search)
    {
      selectedRating := selectedRating[store.id := star];
      if HasRated(store) {
        call := UpdateRating(store.id, star);
      } else {
        call := SubmitRating(store.id, star);
      }
      sent := SendRating(call);
    }
  }

  /** Once the pointer leaves the widget, the clicked star is the one displayed, whatever the
      store's earlier rating: exactly the stars up to the clicked one are filled. */
  lemma ClickedStarDisplayed(selected: map<nat, int>, store: UserStoreView, star: int)
    requires 1 <= star <= 5
    ensures var shown := WidgetDisplay(0, selected[store.id := star], store);
      && shown == star
      && forall i | 1 <= i <= 5 :: StarFilled(i, shown) <==> i <= star
  {
  }

  /** While star `h` is hovered, exactly the stars up to `h` are filled, whatever was
      selected for the store and whatever its earlier rating. */
  lemma HoveredStarDisplayed(selected: map<nat, int>, store: UserStoreView, h: int)
    requires 1 <= h <= 5
    ensures WidgetDisplay(h, selected, store) == h
    ensures forall i | 1 <= i <= 5 :: StarFilled(i, WidgetDisplay(h, selected, store)) <==> i <= h
  {
  }

  /** With nothing hovered and nothing selected for the store, the widget shows the store's
      earlier rating, and no star when it has none. */
  lemma UnselectedShowsOwnRating(selected: map<nat, int>, store: UserStoreView)
    requires store.id !in selected
    ensures store.userRating.Some? ==> WidgetDisplay(0, selected, store) == store.userRating.value
    ensures store.userRating.None? ==> forall i | 1 <= i <= 5 :: !StarFilled(i, WidgetDisplay(0, selected, store))
  {
  }
}
