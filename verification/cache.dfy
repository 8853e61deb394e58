/** `getStations` and `refreshData`: a read-through cache over the browser
    store with a 24-hour window. The clock is the parameter `now`, and the
    fetch cycle it may run is given by the order in which its sources
    settled. */
module Cache {
  import opened JsValues
  import opened Normalise
  import opened Fetcher
  import Scheduler

  /** How long a fetched list is served from the store, in milliseconds. */
  const CacheDuration: int := 24 * 60 * 60 * 1000

  /** A stored text: one that `JSON.parse` (or `Number`) reads back as `value`,
      or one it cannot read. */
  datatype Stored<T> = Valid(value: T) | Corrupt

  /** The text under the `favourites` key: a list, the literal `null`, or
      something that does not parse. */
  datatype FavouritesText = List(ids: seq<Value>) | NullLiteral | Unparsable

  /** The entries of the browser store the app uses: `stations`,
      `stations_last_fetch` and `favourites`; `None` when the key is absent. */
  datatype Store = Store(
    stations: Option<Stored<seq<Value>>>,
    lastFetch: Option<Stored<int>>,
    favourites: Option<FavouritesText>)

  /** The store, which outlives the page, and the module-level accumulator of
      the fetch code, which lives as long as the page does. */
  datatype Page = Page(store: Store, acc: seq<Value>)

  /** What `getStations` returned, whether it ran a fetch cycle, and the page
      afterwards. */
  datatype Answer = Answer(stations: seq<Value>, fetched: bool, page: Page)

  /** The test that lets `getStations` serve the store: a cached entry and a
      readable timestamp less than a day old. An unreadable timestamp is `NaN`,
      and every comparison with `NaN` is false. */
  predicate Fresh(store: Store, now: int) {
    && store.stations.Some?
    && store.lastFetch.Some? && store.lastFetch.value.Valid?
    && now - store.lastFetch.value.value < CacheDuration
  }

  /** `getStations(forceRefresh)`: serve the stored list when it is fresh and
      no refresh is forced (a stored text that does not parse throws);
      otherwise run a fetch cycle, store its list with the time, and return it. */
  function GetStations(page: Page, forceRefresh: bool, now: int, cycle: seq<Settled>): (r: Result<Answer>)
    ensures r.Err? <==> !forceRefresh && Fresh(page.store, now) && page.store.stations.value.Corrupt?
    ensures r.Err? ==> r.error == SyntaxError
    ensures r.Ok? ==> (r.value.fetched <==> forceRefresh || !Fresh(page.store, now))
    ensures r.Ok? && !r.value.fetched ==>
              r.value.page == page && Some(Valid(r.value.stations)) == page.store.stations
    ensures r.Ok? && r.value.fetched ==>
              && r.value.stations == page.acc + Gathered(cycle)
              && |r.value.stations| >= |page.acc| && r.value.stations[..|page.acc|] == page.acc
              && r.value.page.acc == r.value.stations
              && r.value.page.store.stations == Some(Valid(r.value.stations))
              && r.value.page.store.lastFetch == Some(Valid(now))
              && r.value.page.store.favourites == page.store.favourites
  {
    if !forceRefresh && Fresh(page.store, now) then
      match page.store.stations.value
      case Valid(list) => Ok(Answer(list, false, page))
      case Corrupt => Err(SyntaxError)
    else
      var stations := Collect(page.acc, cycle);
      CollectAppends(page.acc, cycle);
      var store := page.store.(stations := Some(Valid(stations)), lastFetch := Some(Valid(now)));
      Ok(Answer(stations, true, Page(store, stations)))
  }

  /** `refreshData`: forget when the list was fetched and reload the page.
      The store keeps the cached list and the favourites; the reload starts
      the fetch code afresh, so the accumulator is empty again. */
  function RefreshData(page: Page): (r: Page)
    ensures r.store.lastFetch.None?
    ensures r.store.stations == page.store.stations && r.store.favourites == page.store.favourites
    ensures r.acc == []
  {
    Page(page.store.(lastFetch := None), [])
  }

  /** Served from the store exactly when no refresh is forced, something is
      cached, a timestamp is stored and less than a day has passed. */
  lemma ServedFromStoreIff(page: Page, forceRefresh: bool, now: int, cycle: seq<Settled>, t: int)
    requires page.store.stations.None? || page.store.stations.value.Valid?
    requires page.store.lastFetch == Some(Valid(t))
    ensures var r := GetStations(page, forceRefresh, now, cycle);
            r.Ok? && (!r.value.fetched <==> !forceRefresh && page.store.stations.Some? && now - t < CacheDuration)
  {
  }

  /** A list stored exactly one day ago is stale; one stored a millisecond
      later is still served. */
  lemma WindowBoundary(page: Page, cycle: seq<Settled>, list: seq<Value>, t: int)
    requires page.store.stations == Some(Valid(list)) && page.store.lastFetch == Some(Valid(t))
    ensures GetStations(page, false, t + CacheDuration, cycle).value.fetched
    ensures GetStations(page, false, t + CacheDuration - 1, cycle) == Ok(Answer(list, false, page))
  {
  }

  /** A cached text that does not parse makes a fresh, unforced call throw; it
      is not treated as a miss. A stale or forced call fetches over it. */
  lemma CorruptCacheThrowsWhenFresh(page: Page, forceRefresh: bool, now: int, cycle: seq<Settled>)
    requires page.store.stations == Some(Corrupt)
    ensures var r := GetStations(page, forceRefresh, now, cycle);
            (r == Err(SyntaxError)) == (!forceRefresh && Fresh(page.store, now))
            && (r.Ok? ==> r.value.page.store.stations == Some(Valid(r.value.stations)))
  {
  }

  /** A forced refresh always runs a fetch cycle, however fresh the store. */
  lemma ForcedRefreshFetches(page: Page, now: int, cycle: seq<Settled>)
    ensures GetStations(page, true, now, cycle).Ok?
    ensures GetStations(page, true, now, cycle).value.fetched
  {
  }

  /** After a fetch, any later call without a forced refresh within the day
      returns the same list without fetching and changes nothing. */
  lemma FetchedListIsServedForADay(page: Page, force: bool, now: int, cycle: seq<Settled>,
                                      later: int, nextCycle: seq<Settled>)
    requires GetStations(page, force, now, cycle).Ok?
    requires GetStations(page, force, now, cycle).value.fetched
    requires later - now < CacheDuration
    ensures var a := GetStations(page, force, now, cycle).value;
            GetStations(a.page, false, later, nextCycle) == Ok(Answer(a.stations, false, a.page))
  {
    var a := GetStations(page, force, now, cycle).value;
    assert a.page.store.stations == Some(Valid(a.stations));
    assert a.page.store.lastFetch == Some(Valid(now));
  }

  /** After `refreshData` the next call fetches, even within the day, because
      the timestamp is gone, and it returns only that cycle's records, because
      the reload emptied the accumulator. */
  lemma RefreshForcesFetch(page: Page, now: int, cycle: seq<Settled>)
    ensures var r := GetStations(RefreshData(page), false, now, cycle);
            r.Ok? && r.value.fetched && r.value.stations == Gathered(cycle)
  {
    assert [] + Gathered(cycle) == Gathered(cycle);
  }

  /** The accumulator is never cleared: a second fetch cycle on the same page
      returns the first cycle's list followed by the second cycle's records. */
  lemma SecondFetchExtendsFirst(page: Page, now1: int, cycle1: seq<Settled>, now2: int, cycle2: seq<Settled>)
    ensures var a := GetStations(page, true, now1, cycle1).value;
            var b := GetStations(a.page, true, now2, cycle2).value;
            && b.stations == Collect(page.acc, cycle1 + cycle2)
            && b.stations[..|a.stations|] == a.stations
  {
    var a := GetStations(page, true, now1, cycle1).value;
    CollectTwoCycles(page.acc, cycle1, cycle2);
    CollectAppends(a.stations, cycle2);
  }

  /** Whenever a call fetches, forced or because the store is stale, the list
      it returns is the one the admission loop returns, for any order in which
      the fetches of the registry ended. */
  lemma FetchReturnsSchedulerResult(page: Page, forceRefresh: bool, now: int, events: seq<Scheduler.Event>)
    requires var t := Scheduler.Run(Registry, Scheduler.Init(|Registry|, page.acc), events);
             t.Some? && t.value.phase == Scheduler.Finished
    ensures var t := Scheduler.Run(Registry, Scheduler.Init(|Registry|, page.acc), events).value;
            var r := GetStations(page, forceRefresh, now, Scheduler.Outcomes(t.finished));
            forceRefresh || !Fresh(page.store, now) ==>
              && r.Ok? && r.value.fetched && r.value.stations == t.acc
              && |r.value.stations| == |page.acc| + Added(Scheduler.Outcomes(t.finished))
  {
    Scheduler.ReturnsAfterEverySourceSettled(Registry, page.acc, events);
  }
}
