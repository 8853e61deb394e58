/** The favourites list: the helpers the map's popups call, and the
    favourites page, which lists the favourite stations. */
module Favourites {
  import opened JsValues
  import opened Lists
  import opened Fetcher
  import opened Cache

  /** `list.includes(x)`. */
  predicate Includes(list: seq<Value>, x: Value) {
    exists i :: 0 <= i < |list| && SameValue(list[i], x)
  }

  /** `favs.filter(id => id !== siteId)`. */
  function Without(favs: seq<Value>, siteId: string): (r: seq<Value>) {
    Filter(favs, e => !SameValue(e, Str(siteId)))
  }

  /** `getFavourites` on the map page: a missing entry reads as `[]`. The
      literal `null` parses to `null`, on which the callers' `.includes`
      throws, so it is reported here as that TypeError. */
  function GetFavourites(store: Store): (r: Result<seq<Value>>)
    ensures store.favourites.None? ==> r == Ok([])
    ensures r.Ok? <==> store.favourites.None? || store.favourites.value.List?
    ensures r.Ok? && store.favourites.Some? ==> r.value == store.favourites.value.ids
    ensures store.favourites == Some(NullLiteral) ==> r == Err(TypeError)
    ensures store.favourites == Some(Unparsable) ==> r == Err(SyntaxError)
  {
    match store.favourites
    case None => Ok([])
    case Some(List(ids)) => Ok(ids)
    case Some(NullLiteral) => Err(TypeError)
    case Some(Unparsable) => Err(SyntaxError)
  }

  /** `isFavourite(siteId)`. */
  function IsFavourite(store: Store, siteId: string): (r: Result<bool>)
    ensures r.Ok? <==> GetFavourites(store).Ok?
    ensures r.Ok? ==> (r.value <==> Includes(GetFavourites(store).value, Str(siteId)))
  {
    match GetFavourites(store)
    case Ok(favs) => Ok(Includes(favs, Str(siteId)))
    case Err(e) => Err(e)
  }

  /** The list `toggleFavourite` stores: without every occurrence of the id
      if it was there, and with the id added at the end if it was not. */
  function Toggle(favs: seq<Value>, siteId: string): (r: seq<Value>)
    ensures Includes(favs, Str(siteId)) ==> !Includes(r, Str(siteId)) && IsSubsequence(r, favs)
    ensures Includes(favs, Str(siteId)) ==>
              forall x :: !SameValue(x, Str(siteId)) ==> multiset(r)[x] == multiset(favs)[x]
    ensures !Includes(favs, Str(siteId)) ==> |r| == |favs| + 1 && r[..|favs|] == favs && r[|favs|..] == [Str(siteId)]
  {
    if Includes(favs, Str(siteId)) then
      var r := Without(favs, siteId);
      FilterIsSubsequence(favs, e => !SameValue(e, Str(siteId)));
      FilterCountsAll(favs, e => !SameValue(e, Str(siteId)));
      r
    else favs + [Str(siteId)]
  }

  /** `toggleFavourite(siteId, btn)` on the store; only the `favourites`
      entry changes. */
  function ToggleFavourite(store: Store, siteId: string): (r: Result<Store>)
    ensures r.Ok? <==> GetFavourites(store).Ok?
    ensures r.Ok? ==> r.value == store.(favourites := Some(List(Toggle(GetFavourites(store).value, siteId))))
  {
    match GetFavourites(store)
    case Ok(favs) => Ok(store.(favourites := Some(List(Toggle(favs, siteId)))))
    case Err(e) => Err(e)
  }

  /** Toggling an id that is not a favourite twice gives back the list. */
  lemma ToggleTwiceRestores(favs: seq<Value>, siteId: string)
    requires !Includes(favs, Str(siteId))
    ensures Toggle(Toggle(favs, siteId), siteId) == favs
  {
    var keep := e => !SameValue(e, Str(siteId));
    var once := favs + [Str(siteId)];
    assert Includes(once, Str(siteId)) by {
      assert SameValue(once[|favs|], Str(siteId));
    }
    FilterConcat(favs, [Str(siteId)], keep);
    FilterKeepsAll(favs, keep);
    assert Filter([Str(siteId)], keep) == [];
  }

  /** Every toggle flips `isFavourite` for that id. */
  lemma ToggleFlips(store: Store, siteId: string)
    requires GetFavourites(store).Ok?
    ensures IsFavourite(ToggleFavourite(store, siteId).value, siteId).Ok?
    ensures IsFavourite(ToggleFavourite(store, siteId).value, siteId).value
            == !IsFavourite(store, siteId).value
  {
    var favs := GetFavourites(store).value;
    var toggled := Toggle(favs, siteId);
    if !Includes(favs, Str(siteId)) {
      assert SameValue(toggled[|favs|], Str(siteId));
    }
  }

  /** Toggling an id leaves whether any other id is a favourite unchanged. */
  lemma ToggleLeavesOthers(store: Store, siteId: string, other: string)
    requires GetFavourites(store).Ok? && other != siteId
    ensures IsFavourite(ToggleFavourite(store, siteId).value, other)
            == IsFavourite(store, other)
  {
    var favs := GetFavourites(store).value;
    var toggled := Toggle(favs, siteId);
    if Includes(favs, Str(siteId)) {
      var keep := e => !SameValue(e, Str(siteId));
      FilterMembership(favs, keep, Str(other));
      if Includes(favs, Str(other)) {
        var i :| 0 <= i < |favs| && SameValue(favs[i], Str(other));
        assert favs[i] == Str(other);
        assert Str(other) in toggled;
      }
    } else {
      if Includes(toggled, Str(other)) {
        var i :| 0 <= i < |toggled| && SameValue(toggled[i], Str(other));
        assert i < |favs| && favs[i] == toggled[i];
      }
    }
  }

  /** The list the favourites page reads: `JSON.parse(getItem('favourites')) || []`.
      A missing entry and the literal `null` both read as `[]`. */
  function ReadFavouritesList(store: Store): (r: Result<seq<Value>>)
    ensures store.favourites.None? || store.favourites == Some(NullLiteral) ==> r == Ok([])
    ensures store.favourites == Some(Unparsable) ==> r == Err(SyntaxError)
    ensures r.Ok? && store.favourites.Some? && store.favourites.value.List? ==> r.value == store.favourites.value.ids
  {
    match store.favourites
    case None => Ok([])
    case Some(List(ids)) => Ok(ids)
    case Some(NullLiteral) => Ok([])
    case Some(Unparsable) => Err(SyntaxError)
  }

  /** The two readers agree except on the literal `null`, which the map page
      cannot use and the favourites page reads as no favourites. */
  lemma ReadersDifferOnlyOnNull(store: Store)
    ensures store.favourites != Some(NullLiteral) ==> GetFavourites(store) == ReadFavouritesList(store)
    ensures store.favourites == Some(NullLiteral) ==>
              GetFavourites(store).Err? && ReadFavouritesList(store) == Ok([])
  {
  }

  /** Whether a station's `site_id` is in the favourites list. */
  predicate IsFavouriteStation(favs: seq<Value>, station: Value) {
    Includes(favs, Prop(station, "site_id"))
  }

  /** `stations.filter(s => favourites.includes(s.site_id))`, which throws a
      TypeError on an `undefined` or `null` station. */
  function FavouriteStations(stations: seq<Value>, favs: seq<Value>): (r: Result<seq<Value>>)
    ensures r.Err? <==> exists i :: 0 <= i < |stations| && Nullish(stations[i])
    ensures r.Err? ==> r.error == TypeError
    ensures r.Ok? ==> forall i :: 0 <= i < |r.value| ==> IsFavouriteStation(favs, r.value[i])
  {
    if exists i :: 0 <= i < |stations| && Nullish(stations[i]) then Err(TypeError)
    else Ok(Filter(stations, s => IsFavouriteStation(favs, s)))
  }

  /** The favourite stations are exactly the stations whose `site_id` is a
      favourite, each kept as often as it occurs, in the list's order. */
  lemma FavouriteStationsExact(stations: seq<Value>, favs: seq<Value>, x: Value)
    requires FavouriteStations(stations, favs).Ok?
    ensures var r := FavouriteStations(stations, favs).value;
            && IsSubsequence(r, stations)
            && multiset(r)[x] == (if IsFavouriteStation(favs, x) then multiset(stations)[x] else 0)
            && (x in r <==> x in stations && IsFavouriteStation(favs, x))
  {
    var keep := s => IsFavouriteStation(favs, s);
    FilterIsSubsequence(stations, keep);
    FilterCounts(stations, keep, x);
    FilterMembership(stations, keep, x);
  }

  /** What the favourites page shows: the prompt to add favourites, the cards
      of the favourite stations, or nothing because `loadFavourites` threw. */
  datatype FavouritesView = NoFavourites | Listing(stations: seq<Value>) | Failed(error: Error)

  /** What the page shows, and the page (store and accumulator) afterwards. A
      throw after `getStations` fetched keeps what the fetch stored. */
  datatype Loaded = Loaded(view: FavouritesView, page: Page)

  /** Whether a station's card renders: `getBrandLogo(station.brand)` throws a
      TypeError unless the brand is a string, and `Object.entries(station.prices)`
      throws one on `undefined` or `null` prices. */
  predicate Renders(station: Value) {
    Prop(station, "brand").Str? && !Nullish(Prop(station, "prices"))
  }

  /** Whether every card of the list renders. */
  predicate AllRender(stations: seq<Value>) {
    forall i :: 0 <= i < |stations| ==> Renders(stations[i])
  }

  /** `loadFavourites`: with no favourites it returns before asking for the
      stations; otherwise it gets the stations as the map does, keeps the
      favourite ones and renders a card for each. Reading the list, getting the
      stations, filtering them and rendering a card can each throw. */
  function LoadFavourites(page: Page, now: int, cycle: seq<Settled>): (r: Loaded)
    ensures ReadFavouritesList(page.store) == Ok([]) ==> r == Loaded(NoFavourites, page)
    ensures ReadFavouritesList(page.store).Err? ==> r == Loaded(Failed(SyntaxError), page)
    ensures ReadFavouritesList(page.store).Ok? && |ReadFavouritesList(page.store).value| > 0 ==>
              var favs := ReadFavouritesList(page.store).value;
              var got := GetStations(page, false, now, cycle);
              && !r.view.NoFavourites?
              && (got.Err? ==> r == Loaded(Failed(got.error), page))
              && (got.Ok? ==> r.page == got.value.page)
              && (r.view.Listing? <==>
                    got.Ok? && FavouriteStations(got.value.stations, favs).Ok?
                    && AllRender(FavouriteStations(got.value.stations, favs).value))
    ensures r.view.Listing? ==>
              var favs := ReadFavouritesList(page.store).value;
              var got := GetStations(page, false, now, cycle);
              && |favs| > 0 && got.Ok?
              && FavouriteStations(got.value.stations, favs) == Ok(r.view.stations)
              && AllRender(r.view.stations)
    ensures r.view.Failed? ==> r.view.error == SyntaxError || r.view.error == TypeError
    ensures ReadFavouritesList(page.store).Ok? && GetStations(page, false, now, cycle).Ok? && r.view.Failed? ==>
              r.view.error == TypeError
  {
    match ReadFavouritesList(page.store)
    case Err(e) => Loaded(Failed(e), page)
    case Ok(favs) =>
      if |favs| == 0 then Loaded(NoFavourites, page)
      else
        match GetStations(page, false, now, cycle)
        case Err(e) => Loaded(Failed(e), page)
        case Ok(got) =>
          match FavouriteStations(got.stations, favs)
          case Err(e) => Loaded(Failed(e), got.page)
          case Ok(shown) =>
            if AllRender(shown) then Loaded(Listing(shown), got.page)
            else Loaded(Failed(TypeError), got.page)
  }

  /** A fetched list holds only objects, so on a page whose accumulator holds
      only objects, filtering the fetched list for favourites never throws. */
  lemma FetchedStationsNeverNullish(acc: seq<Value>, cycle: seq<Settled>, favs: seq<Value>)
    requires forall i :: 0 <= i < |acc| ==> acc[i].Obj?
    ensures FavouriteStations(Collect(acc, cycle), favs).Ok?
  {
    CollectedAreObjects(acc, cycle);
  }

  /** Every record a cycle collects is an object. */
  lemma {:induction false} CollectedAreObjects(acc: seq<Value>, cycle: seq<Settled>)
    requires forall i :: 0 <= i < |acc| ==> acc[i].Obj?
    ensures forall i :: 0 <= i < |Collect(acc, cycle)| ==> Collect(acc, cycle)[i].Obj?
    decreases |cycle|
  {
    if |cycle| > 0 {
      var next := acc + Contribution(cycle[0]);
      assert forall i :: 0 <= i < |next| ==> next[i].Obj?;
      CollectedAreObjects(next, cycle[1..]);
    }
  }
}
