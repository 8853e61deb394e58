/** The price fallbacks of the map: the price a marker shows for the chosen
    fuel, and the per-fuel lines of a station's popup. Number formatting
    (`toFixed(1)`) is not modelled: a positive price is shown as itself. */
module Prices {
  import opened JsValues
  import opened GeoJson

  /** What a marker shows when a station has no price for the fuel. */
  const NotAvailableText: string := "N/A"

  /** Whether `prices?.[fuelType]` reads an entry that is neither `undefined`
      nor `null`. */
  predicate HasPrice(prices: Value, fuelType: string) {
    prices.Obj? && fuelType in prices.fields && !Nullish(prices.fields[fuelType])
  }

  /** `prices?.[fuelType] ?? 'N/A'` in `createStationIcon`: the entry when it
      is present, including `0` and `false`; `'N/A'` when the prices or the
      entry are missing. */
  function MarkerPrice(prices: Value, fuelType: string): (r: Value)
    ensures HasPrice(prices, fuelType) ==> r == prices.fields[fuelType]
    ensures !HasPrice(prices, fuelType) ==> r == Str(NotAvailableText)
    ensures !Nullish(r)
  {
    var entry := if Nullish(prices) then Undefined else Prop(prices, fuelType);
    if Nullish(entry) then Str(NotAvailableText) else entry
  }

  /** The price a station's marker shows. */
  function FeatureMarkerPrice(feature: Feature, fuelType: string): (price: Value) {
    MarkerPrice(feature.properties.prices, fuelType)
  }

  /** One price line of a popup: a price per litre, or `N/A`. */
  datatype PriceLabel = PerLitre(pence: real) | NotAvailable

  /** `price > 0 ? price.toFixed(1) + 'p/l' : 'N/A'` on one entry.
      The comparison converts the entry to a number (`undefined` to NaN,
      `null` and `false` to 0, `true` to 1, a string through `toNumber`, where
      `None` stands for NaN); only a number has `toFixed`, so any other entry
      that compares as positive throws a TypeError. */
  function PriceLabelOf(price: Value, toNumber: string -> Option<real>): (r: Result<PriceLabel>)
    ensures price.Num? ==> r == Ok(if price.x > 0.0 then PerLitre(price.x) else NotAvailable)
    ensures Nullish(price) ==> r == Ok(NotAvailable)
    ensures r.Ok? && r.value.PerLitre? ==> price == Num(r.value.pence) && r.value.pence > 0.0
    ensures r.Err? <==> price == Bool(true) || (price.Str? && toNumber(price.s).Some? && toNumber(price.s).value > 0.0)
    ensures r.Err? ==> r.error == TypeError
  {
    match price
    case Num(x) => Ok(if x > 0.0 then PerLitre(x) else NotAvailable)
    case Bool(b) => if b then Err(TypeError) else Ok(NotAvailable)
    case Str(s) =>
      var n := toNumber(s);
      if n.Some? && n.value > 0.0 then Err(TypeError) else Ok(NotAvailable)
    case _ => Ok(NotAvailable)
  }

  /** The price lines of a popup, `Object.entries(prices).map(...)`, keyed by
      fuel. `Object.entries` throws on `undefined` and `null`, and a number or
      a boolean has no entries. */
  function PopupPrices(prices: Value, toNumber: string -> Option<real>): (r: Result<map<string, PriceLabel>>)
    ensures Nullish(prices) ==> r == Err(TypeError)
    ensures r.Err? ==> r.error == TypeError
    ensures prices.Obj? ==>
              (r.Ok? <==> forall fuel :: fuel in prices.fields ==> PriceLabelOf(prices.fields[fuel], toNumber).Ok?)
    ensures prices.Obj? && r.Ok? ==>
              && r.value.Keys == prices.fields.Keys
              && forall fuel :: fuel in r.value ==> Ok(r.value[fuel]) == PriceLabelOf(prices.fields[fuel], toNumber)
    ensures (prices.Num? || prices.Bool?) ==> r == Ok(map[])
  {
    match prices
    case Undefined => Err(TypeError)
    case Null => Err(TypeError)
    case Obj(fields) =>
      if forall fuel :: fuel in fields ==> PriceLabelOf(fields[fuel], toNumber).Ok? then
        Ok(map fuel | fuel in fields :: PriceLabelOf(fields[fuel], toNumber).value)
      else Err(TypeError)
    case _ => Ok(map[])
  }

  /** A price of 0 is shown as 0 on the marker, since `??` only replaces
      `undefined` and `null`, while the popup shows `N/A` for it. */
  lemma ZeroPriceShownOnMarkerOnly(fuelType: string, toNumber: string -> Option<real>)
    ensures var prices := Obj(map[fuelType := Num(0.0)]);
            && MarkerPrice(prices, fuelType) == Num(0.0)
            && PopupPrices(prices, toNumber) == Ok(map[fuelType := NotAvailable])
  {
    var prices := Obj(map[fuelType := Num(0.0)]);
    assert PriceLabelOf(Num(0.0), toNumber) == Ok(NotAvailable);
    var labels := PopupPrices(prices, toNumber).value;
    assert labels.Keys == {fuelType} && labels[fuelType] == NotAvailable;
    assert labels == map[fuelType := NotAvailable];
  }

  /** The marker shows `N/A` exactly when the entry is missing, or is itself
      the text `N/A`. */
  lemma MarkerNotAvailableIff(prices: Value, fuelType: string)
    ensures MarkerPrice(prices, fuelType) == Str(NotAvailableText)
            <==> !HasPrice(prices, fuelType) || prices.fields[fuelType] == Str(NotAvailableText)
  {
  }

  /** On a price list of numbers, the popup never throws, lists every fuel,
      shows `N/A` exactly for the prices that are not positive, and agrees
      with the marker on every positive price. */
  lemma NumericPricesAgree(fields: map<string, Value>, toNumber: string -> Option<real>)
    requires forall fuel :: fuel in fields ==> fields[fuel].Num?
    ensures var r := PopupPrices(Obj(fields), toNumber);
            && r.Ok? && r.value.Keys == fields.Keys
            && (forall fuel :: fuel in fields ==> (r.value[fuel] == NotAvailable <==> fields[fuel].x <= 0.0))
            && (forall fuel :: fuel in fields && r.value[fuel].PerLitre? ==>
                  MarkerPrice(Obj(fields), fuel) == Num(r.value[fuel].pence))
  {
    var r := PopupPrices(Obj(fields), toNumber);
    assert r.Ok?;
    forall fuel | fuel in fields
      ensures r.value[fuel] == (if fields[fuel].x > 0.0 then PerLitre(fields[fuel].x) else NotAvailable)
    {
      assert Ok(r.value[fuel]) == PriceLabelOf(fields[fuel], toNumber);
    }
  }

  /** A `true` entry throws in the popup (it compares as 1 but has no
      `toFixed`), while the marker shows it. */
  lemma TrueEntryThrowsInPopup(fuelType: string, toNumber: string -> Option<real>)
    ensures var prices := Obj(map[fuelType := Bool(true)]);
            && MarkerPrice(prices, fuelType) == Bool(true)
            && PopupPrices(prices, toNumber) == Err(TypeError)
  {
    var prices := Obj(map[fuelType := Bool(true)]);
    assert !PriceLabelOf(prices.fields[fuelType], toNumber).Ok?;
  }

  /** A converted station's marker shows the station's own price for the fuel,
      or `N/A`. */
  lemma StationMarkerPrice(station: Value, fuelType: string)
    requires StationToFeature(station).Ok?
    ensures var price := FeatureMarkerPrice(StationToFeature(station).value, fuelType);
            var prices := Prop(station, "prices");
            && (HasPrice(prices, fuelType) ==> price == prices.fields[fuelType])
            && (!HasPrice(prices, fuelType) ==> price == Str(NotAvailableText))
  {
  }
}
