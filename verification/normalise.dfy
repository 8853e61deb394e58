/** The source registry and `normaliseData`: turning one feed's parsed
    response into station records stamped with their provenance. */
module Normalise {
  import opened JsValues

  /** One retailer feed of the registry. */
  datatype Source = Source(name: string, url: string)

  /** The registry, in the order the scheduler admits it. */
  const Registry: seq<Source> := [
    Source("Ascona Group", "https://fuelprices.asconagroup.co.uk/newfuel.json"),
    Source("Asda", "https://storelocator.asda.com/fuel_prices_data.json"),
    Source("bp", "https://www.bp.com/en_gb/united-kingdom/home/fuelprices/fuel_prices_data.json"),
    Source("Esso Tesco Alliance", "https://fuelprices.esso.co.uk/latestdata.json"),
    Source("JET Retail UK", "https://jetlocal.co.uk/fuel_prices_data.json"),
    Source("Karan Retail Ltd", "https://api.krl.live/integration/live_price/krl"),
    Source("Morrisons", "https://www.morrisons.com/fuel-prices/fuel.json"),
    Source("Moto", "https://moto-way.com/fuel-price/fuel_prices.json"),
    Source("Motor Fuel Group", "https://fuel.motorfuelgroup.com/fuel_prices_data.json"),
    Source("Rontec", "https://www.rontec-servicestations.co.uk/fuel-prices/data/fuel_prices_data.json"),
    Source("Sainsbury’s", "https://api.sainsburys.co.uk/v1/exports/latest/fuel_prices_data.json"),
    Source("SGN", "https://www.sgnretail.uk/files/data/SGN_daily_fuel_prices.json"),
    Source("Shell", "https://www.shell.co.uk/fuel-prices-data.html"),
    Source("Tesco", "https://www.tesco.com/fuel_prices/fuel_prices_data.json")
  ]

  /** The registry holds fourteen feeds, no two with the same address, in
      the order they are admitted: Ascona Group first, Tesco last. */
  lemma RegistryShape()
    ensures |Registry| == 14
    ensures forall i, j :: 0 <= i < j < |Registry| ==> Registry[i].url != Registry[j].url
    ensures Registry[0].name == "Ascona Group" && Registry[13].name == "Tesco"
  {
  }

  /** The registry entry as the JavaScript object a record's `source` field holds. */
  function SourceValue(src: Source): (r: Value)
    ensures r.Obj? && r.fields.Keys == {"name", "url"}
    ensures r.fields["name"] == Str(src.name) && r.fields["url"] == Str(src.url)
  {
    Obj(map["name" := Str(src.name), "url" := Str(src.url)])
  }

  /** The fields `{...v}` copies: an object's own fields, and none for a
      primitive. */
  function Spread(v: Value): (fields: map<string, Value>) {
    if v.Obj? then v.fields else map[]
  }

  /** The two fields every normalised record gets from its envelope. */
  const StampedKeys: set<string> := {"source", "last_updated"}

  /** One station with `source` and `last_updated` written over its own fields. */
  function Stamp(station: Value, src: Source, lastUpdated: Value): (r: Value)
    ensures r.Obj?
    ensures r.fields.Keys == Spread(station).Keys + StampedKeys
    ensures r.fields["source"] == SourceValue(src)
    ensures r.fields["last_updated"] == lastUpdated
    ensures forall k :: k in Spread(station) && k !in StampedKeys ==> r.fields[k] == Spread(station)[k]
  {
    Obj(Spread(station)["source" := SourceValue(src)]["last_updated" := lastUpdated])
  }

  /** `normaliseData(apiResponse, sourceApi)`: a TypeError when the response
      is null, `[]` when its `stations` is falsy, a TypeError when that is
      truthy but not an array (it has no `map`), and otherwise one stamped
      record per station, in order. */
  function NormaliseData(response: Value, src: Source): (r: Result<seq<Value>>)
    ensures r.Err? <==> Nullish(response) || (Truthy(Prop(response, "stations")) && !Prop(response, "stations").Arr?)
    ensures r.Err? ==> r.error == TypeError
    ensures r.Ok? && !Truthy(Prop(response, "stations")) ==> r.value == []
    ensures r.Ok? && Prop(response, "stations").Arr? ==>
              var stations := Prop(response, "stations").items;
              && |r.value| == |stations|
              && forall i :: 0 <= i < |stations| ==>
                   r.value[i] == Stamp(stations[i], src, Prop(response, "last_updated"))
  {
    match Get(response, "stations")
    case Err(e) => Err(e)
    case Ok(list) =>
      if !Truthy(list) then Ok([])
      else if list.Arr? then
        var lastUpdated := Prop(response, "last_updated");
        Ok(seq(|list.items|, i requires 0 <= i < |list.items| => Stamp(list.items[i], src, lastUpdated)))
      else Err(TypeError)
  }

  /** Removing the stamped fields from a normalised record gives back exactly
      the station's own fields other than those two. */
  lemma StampKeepsOtherFields(station: Value, src: Source, lastUpdated: Value)
    ensures Stamp(station, src, lastUpdated).fields - StampedKeys == Spread(station) - StampedKeys
  {
    var r := Stamp(station, src, lastUpdated).fields;
    assert (r - StampedKeys).Keys == (Spread(station) - StampedKeys).Keys;
    forall k | k in (r - StampedKeys)
      ensures (r - StampedKeys)[k] == (Spread(station) - StampedKeys)[k]
    {
    }
  }

  /** Normalising a record again with the same source and timestamp changes
      nothing. */
  lemma StampIdempotent(station: Value, src: Source, lastUpdated: Value)
    ensures Stamp(Stamp(station, src, lastUpdated), src, lastUpdated) == Stamp(station, src, lastUpdated)
  {
    var once := Stamp(station, src, lastUpdated);
    var twice := Stamp(once, src, lastUpdated);
    assert twice.fields.Keys == once.fields.Keys;
    forall k | k in twice.fields
      ensures twice.fields[k] == once.fields[k]
    {
    }
  }

  /** A feed whose `stations` is the concatenation of two lists normalises to
      the concatenation of the two lists' records. */
  lemma NormaliseSplits(a: seq<Value>, b: seq<Value>, lastUpdated: Value, src: Source)
    ensures var whole := NormaliseData(Obj(map["stations" := Arr(a + b), "last_updated" := lastUpdated]), src);
            var left := NormaliseData(Obj(map["stations" := Arr(a), "last_updated" := lastUpdated]), src);
            var right := NormaliseData(Obj(map["stations" := Arr(b), "last_updated" := lastUpdated]), src);
            whole.Ok? && left.Ok? && right.Ok? && whole.value == left.value + right.value
  {
    var w := Obj(map["stations" := Arr(a + b), "last_updated" := lastUpdated]);
    var l := Obj(map["stations" := Arr(a), "last_updated" := lastUpdated]);
    var r := Obj(map["stations" := Arr(b), "last_updated" := lastUpdated]);
    assert Prop(w, "stations") == Arr(a + b) && Prop(w, "last_updated") == lastUpdated;
    assert Prop(l, "stations") == Arr(a) && Prop(l, "last_updated") == lastUpdated;
    assert Prop(r, "stations") == Arr(b) && Prop(r, "last_updated") == lastUpdated;
    var whole, left, right := NormaliseData(w, src).value, NormaliseData(l, src).value, NormaliseData(r, src).value;
    forall i | 0 <= i < |whole| ensures whole[i] == (left + right)[i] {
      if i < |a| {
        assert (a + b)[i] == a[i];
      } else {
        assert (a + b)[i] == b[i - |a|];
      }
    }
  }

  /** The example envelope `{stations: [{site_id: "A1", prices: {E10: 140.9}}],
      last_updated: "2024-01-01"}` from Tesco gives a single record with that
      site id, source and timestamp. */
  lemma TescoExample()
    ensures var station := Obj(map["site_id" := Str("A1"), "prices" := Obj(map["E10" := Num(140.9)])]);
            var response := Obj(map["stations" := Arr([station]), "last_updated" := Str("2024-01-01")]);
            var r := NormaliseData(response, Registry[13]);
            && r.Ok? && |r.value| == 1
            && r.value[0].fields["site_id"] == Str("A1")
            && r.value[0].fields["source"] == SourceValue(Registry[13])
            && r.value[0].fields["source"].fields["name"] == Str("Tesco")
            && r.value[0].fields["last_updated"] == Str("2024-01-01")
  {
  }

  /** A response without a `stations` field normalises to no records. */
  lemma MissingStationsGiveNothing(response: Value, src: Source)
    requires response.Obj? && "stations" !in response.fields
    ensures NormaliseData(response, src) == Ok([])
  {
  }
}
