# openpumpprices in Dafny

A model of the data core of openpumpprices. openpumpprices is a browser app that maps UK fuel stations and their prices from the retailers' open fuel-price feeds. The model covers:

- **Fetching** (`fetchData.js`):
  - the registry of 14 retailer feeds;
  - `normaliseData`, which stamps each station with its source and the feed's update time;
  - `fetchWithProxy`, which appends one feed's records to a shared accumulator or nothing at all;
  - the admission loop of `fetchAllFuelData`, which keeps at most five fetches in flight;
  - `getStations`, a read-through cache over the browser store with a 24-hour window.
- **Map helpers** (`map.js`):
  - the brand-to-logo table and `getBrandLogo`;
  - `stationsToGeoJSON`;
  - the favourites helpers `getFavourites`, `isFavourite` and `toggleFavourite`;
  - the price fallbacks of a marker and of a popup.
- **Favourites page** (`favourites.js`):
  - `refreshData`;
  - `loadFavourites`, which reads the favourites list and keeps the favourite stations.

Modules:

| file | module | models |
|---|---|---|
| `jsvalues.dfy` | `JsValues` | parsed JavaScript values, `undefined`/`null`, truthiness, property reads that throw on nullish values, and the identity test behind `includes` and `!==` |
| `normalise.dfy` | `Normalise` | the registry and `normaliseData` |
| `fetcher.dfy` | `Fetcher` | one fetch's effect on the accumulator (`Contribution`), and the accumulator after the fetches of a cycle end in a given order (`Collect`) |
| `scheduler.dfy` | `Scheduler` | `fetchAllFuelData` as a state machine, with invariants, liveness, termination and an executable run |
| `cache.dfy` | `Cache` | the browser store, `getStations` and `refreshData` |
| `lists.dfy` | `Lists` | `Array.prototype.filter` and what it keeps |
| `favourites.dfy` | `Favourites` | the favourites helpers of the map and `loadFavourites` |
| `brands.dfy` | `Brands` | `brandToLogo` and `getBrandLogo` |
| `geojson.dfy` | `GeoJson` | `stationsToGeoJSON` |
| `prices.dfy` | `Prices` | the marker price and the popup price lines |

What the model stands on:

- **Values and exceptions.** A thrown exception is the `Err` side of a `Result`. A property read of `undefined` or `null` is a `TypeError`. Text that does not parse is a `SyntaxError`.
- **Concurrency.** The fetches are cooperative. While the loop is suspended they may end in any order. The model represents them as events of a nondeterministic state machine:
  - a fetch's body pushing its records is one event;
  - the `finally` callback that splices it out of `active` is a separate, later event;
  - the race resumes the loop only after some `finally` has run.
- **Inputs.** The network, the clock and the order in which fetches end are parameters. What each request produced is an `Attempt`: a network failure, an HTTP error, a body that is not JSON, or a parsed value.

Two behaviours of the code that a reader might not expect, and which the model keeps:

- **A cached list that does not parse is not treated as a cache miss.** `getStations` calls `JSON.parse` on it (`fetchData.js:103`), which throws. So `Cache.GetStations` returns `Err(SyntaxError)` when the store is fresh and no refresh is forced.
- **The accumulator is never cleared.** It is declared once per page (`fetchData.js:29`), and every fetch appends to it (`fetchData.js:59`). `Cache.Page` therefore carries it from one `getStations` call to the next. `Cache.SecondFetchExtendsFirst` shows that a second fetch on the same page returns the first list again, followed by the new records. (In the code it is the same array: see "## Left out".) `refreshData` reloads the page (`favourites.js:9`), which starts with an empty accumulator. `Cache.RefreshData` models that reload.

## Model

| member | source | states |
|---|---|---|
| Normalise.RegistryShape | fetchData.js:3-18 | the registry lists 14 feeds with pairwise distinct URLs, from Ascona Group to Tesco |
| Normalise.Stamp | fetchData.js:33-37 | a normalised record is an object holding the station's own fields plus `source`, set to the registry entry, and `last_updated`, set to the envelope's; every other field of the station is kept unchanged |
| Normalise.NormaliseData | fetchData.js:32-37 | throws a TypeError exactly when the response is null/undefined or its `stations` is truthy but not an array; a falsy `stations` gives no records; an array gives one stamped record per station, in the same order |
| Normalise.StampKeepsOtherFields | fetchData.js:34-36 | removing `source` and `last_updated` from a record gives back exactly the station's other fields |
| Normalise.StampIdempotent | fetchData.js:34-36 | stamping a record again with the same source and time changes nothing |
| Normalise.NormaliseSplits | fetchData.js:33 | a feed whose station list is a concatenation normalises to the concatenation of the parts' records |
| Normalise.TescoExample | fetchData.js:32-37 | a one-station envelope normalised with the registry's Tesco entry gives one record with its site id, that entry as its source and the envelope's timestamp |
| Normalise.MissingStationsGiveNothing | fetchData.js:33 | a response object without `stations` yields no records and does not throw |
| Fetcher.Contribution | fetchData.js:40-65 | a fetch pushes records only when its body parsed and normalised, and then exactly the normalised records, each stamped with its own source; every failure (network, status, JSON, normalising) is caught and pushes nothing |
| Fetcher.Collect | fetchData.js:57-59 | fetches only ever append: the earlier accumulator stays a prefix of the result |
| Fetcher.CollectAppends | fetchData.js:57-59 | after a cycle, the accumulator is the earlier accumulator followed by the records of each ended fetch, in the order the fetches ended |
| Fetcher.RecordsLandInOrder | fetchData.js:59 | the records of a fetch land right after those of the fetches that ended before it and before those of the fetches that end after it |
| Fetcher.CollectLength | fetchData.js:59 | the accumulator grows by exactly the sum of the fetches' record counts |
| Fetcher.CollectTwoCycles | fetchData.js:29 | two cycles on the same accumulator give what one cycle over both would give |
| Fetcher.AllFailedAddsNothing | fetchData.js:41-64 | a cycle in which every request failed leaves the accumulator as it was |
| Fetcher.AddedOrderIndependent | fetchData.js:59 | how many records a cycle adds does not depend on the order in which its fetches end |
| Scheduler.Init | fetchData.js:69-70 | on entry every source is queued in registry order and nothing is in flight; the loop body runs exactly when the registry is non-empty |
| Scheduler.Next | fetchData.js:72-83 | no step reorders or loses a source between started and queued; a step admits at most one fetch, and only while fewer than five are in flight; the accumulator and the list of ended fetches only grow at the end, by at most one fetch per step |
| Scheduler.NextInv | fetchData.js:68-83 | every step of the loop or of an in-flight fetch keeps the invariant: admission in registry order, at most five in flight, every started source either ended once or pending, and the accumulator consistent with the ended fetches |
| Scheduler.AdmissionBound | fetchData.js:72-79 | in every reachable state at most five fetches are in flight, and sources start in registry order, each at most once |
| Scheduler.RaceHasSomethingToWaitFor | fetchData.js:73-80 | the loop never awaits a race over an empty `active` list |
| Scheduler.RaceOnlyWhenFull | fetchData.js:73-80 | the loop races only once five fetches are in flight or the queue is empty: it never waits while it could still admit a source |
| Scheduler.ReturnsAfterEverySourceSettled | fetchData.js:68-91 | when the loop returns, the queue is empty, nothing is in flight, every registry source ended exactly once, and the result is the earlier accumulator followed by their records in ending order |
| Scheduler.TotalIndependentOfOrder | fetchData.js:68-91 | two runs whose sources gave the same answers return lists of the same length, whatever order the fetches ended in |
| Scheduler.NoDeadlock | fetchData.js:72-83 | before the loop returns, some step is always possible |
| Scheduler.AnyPendingFetchMayEnd | fetchData.js:75-83 | while the loop is suspended in the race or in the final `Promise.all`, any in-flight fetch whose body has not ended may end next, with any outcome, and is then recorded as the latest to end with its own source |
| Scheduler.AnyEndedFetchMayRelease | fetchData.js:75-77 | while the loop is suspended, the `finally` of any fetch whose body has ended may run next and splice it out |
| Scheduler.StepDecreases | fetchData.js:72-83 | every step lowers a work measure (or keeps it and advances the phase), so the loop returns after finitely many steps |
| Scheduler.FetchAllFuelData | fetchData.js:68-92 | running the loop to its return yields a state the machine can reach, in which every registry source ended once with its own answer, and the returned list is the earlier accumulator followed by their records |
| Cache.GetStations | fetchData.js:95-115 | serves the stored list exactly when no refresh is forced and a list and a timestamp under a day old are stored, throwing if that list does not parse; otherwise fetches, returns the earlier accumulator followed by the cycle's records in ending order, keeps that as the accumulator, and stores it with the current time without touching favourites |
| Cache.RefreshData | favourites.js:4-10 | the fetch timestamp is removed from the store, the cached list and the favourites stay, and the reload empties the accumulator |
| Cache.ServedFromStoreIff | fetchData.js:101 | with a readable timestamp, the store is used if and only if no refresh is forced, a list is cached and less than a day has passed |
| Cache.WindowBoundary | fetchData.js:101 | a list stored exactly 24 hours earlier is refetched; one millisecond earlier it is still served |
| Cache.CorruptCacheThrowsWhenFresh | fetchData.js:101-103 | a cached text that does not parse throws a SyntaxError when the store is fresh and unforced; otherwise a fetch replaces it |
| Cache.ForcedRefreshFetches | fetchData.js:101-108 | a forced refresh always fetches |
| Cache.FetchedListIsServedForADay | fetchData.js:111-112 | after a fetch, any unforced call within the day returns the same list and changes nothing |
| Cache.RefreshForcesFetch | favourites.js:4-10 | after `refreshData`, the next call fetches even within the day and returns only that cycle's records |
| Cache.SecondFetchExtendsFirst | fetchData.js:29 | a second fetch on the same page returns the first list followed by the second cycle's records |
| Cache.FetchReturnsSchedulerResult | fetchData.js:101-108 | whenever a call fetches, forced or because the store is stale, it returns the list the admission loop returns, for every order in which the fetches ended |
| Favourites.GetFavourites | map.js:112-114 | a missing entry reads as no favourites; a stored list reads as itself; a stored `null` makes the callers' `includes` throw; unparsable text throws a SyntaxError |
| Favourites.IsFavourite | map.js:116 | an id is a favourite exactly when the stored list includes it as a string |
| Favourites.Toggle | map.js:119-126 | on a present id, the result contains no occurrence of it, keeps every other value as often as it occurred, and keeps them in order; on an absent id, it is the list with the id appended |
| Favourites.ToggleFavourite | map.js:118-128 | only the favourites entry of the store changes, to the toggled list; it throws exactly when reading the list throws |
| Favourites.ToggleTwiceRestores | map.js:118-127 | toggling an absent id twice restores the original list |
| Favourites.ToggleFlips | map.js:116-127 | every toggle flips `isFavourite` for that id |
| Favourites.ToggleLeavesOthers | map.js:116-127 | toggling one id never changes whether another id is a favourite |
| Favourites.ReadFavouritesList | favourites.js:14 | on the favourites page a missing entry and a stored `null` both read as no favourites; unparsable text throws |
| Favourites.ReadersDifferOnlyOnNull | favourites.js:14 | the map's and the favourites page's readers agree on every store except one holding `null` |
| Favourites.FavouriteStations | favourites.js:22 | throws exactly when some station is null/undefined; otherwise returns only stations whose `site_id` is a favourite |
| Favourites.FavouriteStationsExact | favourites.js:22 | the favourite stations are exactly the stations whose `site_id` is a favourite, each kept as often as it occurs, in list order |
| Favourites.LoadFavourites | favourites.js:12-30 | with no favourites the page returns before asking for stations; with some, it lists the favourite stations of what `getStations` returned exactly when getting the stations, filtering them and rendering every card (a string brand, prices that are not null/undefined) all succeed, and otherwise it throws, keeping whatever the fetch stored |
| Favourites.FetchedStationsNeverNullish | favourites.js:21-22 | filtering a fetched list never throws |
| Favourites.CollectedAreObjects | fetchData.js:32-37 | every record a cycle collects is an object |
| Brands.BrandKey | map.js:51 | the normalised key consists only of the letters a-z and is no longer than the brand |
| Brands.BrandKeyKeepsLetters | map.js:51 | the key is the lower-cased brand with everything but the letters a-z removed: every letter kept as often as it occurs, in order, and nothing else |
| Brands.GetBrandLogo | map.js:50-53 | a string brand gives the logo directory followed by a table file or `default.webp`; any other brand throws a TypeError |
| Brands.DefaultOnlyForUnknownBrands | map.js:52 | the default logo is shown exactly for brands whose key is not in the table |
| Brands.KnownBrandGetsItsFile | map.js:52 | a brand whose key is in the table gets the logo directory followed by that key's own file |
| Brands.BrandKeyIdempotent | map.js:51 | normalising a key again changes nothing |
| Brands.CaseDoesNotMatter | map.js:51 | brands that differ only in letter case have the same key |
| Brands.NonLettersDoNotMatter | map.js:51 | inserting a space, digit or punctuation character anywhere leaves the key unchanged |
| Brands.BrandKeyConcat | map.js:51 | the key of a concatenation is the concatenation of the keys |
| Brands.SameKeySameLogo | map.js:52 | brands with the same key get the same logo |
| Brands.AsdaLogos | map.js:41-42 | `asda` and `asdaexpress` share `ASDA.webp`, and "Asda" maps to it |
| Brands.CoopLogo | map.js:45-52 | "Co-op" maps to `COOP.webp` |
| Brands.UnknownAndMissingBrands | map.js:50-53 | a brand outside the table gets `default.webp`; a `null` brand throws |
| GeoJson.StationToFeature | map.js:60-77 | a feature copies the seven display fields of its station and has coordinates `[longitude, latitude]`; it throws exactly when the station or its location is null/undefined |
| GeoJson.StationsToGeoJSON | map.js:57-80 | one feature per station, in order, each that station's feature; it throws exactly when some station cannot be converted |
| GeoJson.GeoJsonConcat | map.js:60 | converting a concatenation converts each part and concatenates the features |
| GeoJson.FeatureKeepsProvenance | map.js:68-69 | a normalised station's feature carries the source and update time that normalisation stamped on it |
| GeoJson.FeedConverts | map.js:57-80 | a feed's records convert exactly when each has a location, and then every feature names that feed as its source |
| Prices.MarkerPrice | map.js:86 | the marker shows the entry for the fuel when it is neither undefined nor null, including 0, and `N/A` otherwise |
| Prices.MarkerNotAvailableIff | map.js:86 | the marker shows `N/A` exactly when the entry is missing or is itself the text `N/A` |
| Prices.PriceLabelOf | map.js:158 | a number is shown per litre when positive and as `N/A` otherwise; null/undefined show `N/A`; it throws a TypeError exactly for `true` and for a string that converts to a positive number |
| Prices.PopupPrices | map.js:157-158 | `Object.entries` throws on null/undefined prices; on an object the popup lists every fuel with its label, and throws exactly when some label throws |
| Prices.ZeroPriceShownOnMarkerOnly | map.js:158 | a price of 0 shows as 0 on the marker but as `N/A` in the popup |
| Prices.NumericPricesAgree | map.js:157-158 | on numeric prices the popup never throws, shows `N/A` exactly for non-positive prices, and agrees with the marker on positive ones |
| Prices.TrueEntryThrowsInPopup | map.js:158 | an entry `true` is shown on the marker but makes the popup throw |
| Prices.StationMarkerPrice | map.js:83-86 | a converted station's marker shows its own price for the fuel, or `N/A` |

## Left out

- Leaflet map setup, tiles, clustering, icons, popup HTML, `addStationsToMap`, `updateIcons`, `toggleNerdInfo` and the popup-open handler (map.js:8-29, 88-109, 131-206): user-interface and third-party library calls. Only the price and logo logic inside them is modelled.
- The favourites page's HTML (favourites.js:24-35) and the page start-up in `index.js`: DOM templating. Only whether each card renders without throwing is modelled (`Favourites.Renders`).
- The relay URL, `encodeURIComponent` and `fetch` itself (fetchData.js:21, 42-47): each request is replaced by the `Attempt` it produced.
- Console logging.
- Promise timing: every interleaving of fetch endings is allowed. A fetch that never ends is not modelled; termination assumes every fetch ends.
- `Scheduler.FetchAllFuelData`: it runs one schedule, in which the oldest in-flight fetch ends first. The lemmas about `Run` cover every schedule.
- `JSON.stringify` and `JSON.parse` of the store: a stored list reads back as the list that was stored, and a text that does not parse is `Corrupt`. `JSON.stringify` dropping `undefined` fields is not modelled.
- Stored texts that are empty strings, and a favourites entry holding JSON other than a list or `null`.
- Exceptions from `localStorage.setItem`, such as a full quota.
- Floating-point numbers, NaN for numbers, and `toFixed(1)` formatting: prices and coordinates are reals, and a positive price is shown as itself.
- Reads of prototype properties, array indices and `length` through `Prop`. For example, `brandToLogo["constructor"]` is not modelled; the table is its own keys only.
- Spreading a string or an array into a record (`{..."ab"}`): a non-object station contributes no fields.
- Brands.GetBrandLogo: brands are required to be ASCII, because `toLowerCase` on other characters can produce a-z letters (the Kelvin sign becomes `k`).
- Prices.PriceLabelOf: an array or object price is shown as `N/A`. An array whose only element converts to a positive number would actually throw.
- Prices.PopupPrices: a string or array price list is treated as having no entries, and the order of the popup lines is not modelled.
- Fetcher.Collect: its own contract states only that the earlier accumulator stays a prefix, because it is called inside every scheduler proof. What follows the prefix is stated by `Fetcher.CollectAppends` and `Fetcher.RecordsLandInOrder`.
- Brands.BrandKey: its own contract states only the alphabet and the length, because it is evaluated on concrete brand names. Which letters the key holds is stated by `Brands.BrandKeyKeepsLetters`.
- Cache.GetStations: results are values. In the code, the array a fetching `getStations` returns is the accumulator itself (fetchData.js:91, 108, 114). A later cycle on the same page also grows a list returned earlier, but the model's earlier result stays as it was.
