/** `stationsToGeoJSON`: one GeoJSON Point feature per station, with the
    station's display fields copied and its location turned into
    `[longitude, latitude]` coordinates. */
module GeoJson {
  import opened JsValues
  import opened Normalise
  import opened Lists

  /** The fields a feature carries over from its station. */
  datatype Properties = Properties(
    siteId: Value,
    brand: Value,
    address: Value,
    postcode: Value,
    prices: Value,
    source: Value,
    lastUpdated: Value)

  /** A GeoJSON `Point`. */
  datatype Point = Point(coordinates: seq<Value>)

  /** A GeoJSON `Feature` of type `Point`. */
  datatype Feature = Feature(properties: Properties, geometry: Point)

  /** A GeoJSON `FeatureCollection`. */
  datatype FeatureCollection = FeatureCollection(features: seq<Feature>)

  /** The feature built from one station. Reading a field of a missing station
      or of a missing `location` throws a TypeError. */
  function StationToFeature(station: Value): (r: Result<Feature>)
    ensures r.Err? <==> Nullish(station) || Nullish(Prop(station, "location"))
    ensures r.Err? ==> r.error == TypeError
    ensures r.Ok? ==>
              var location := Prop(station, "location");
              r.value.geometry.coordinates == [Prop(location, "longitude"), Prop(location, "latitude")]
    ensures r.Ok? ==>
              var p := r.value.properties;
              && p.siteId == Prop(station, "site_id")
              && p.brand == Prop(station, "brand")
              && p.address == Prop(station, "address")
              && p.postcode == Prop(station, "postcode")
              && p.prices == Prop(station, "prices")
              && p.source == Prop(station, "source")
              && p.lastUpdated == Prop(station, "last_updated")
  {
    if Nullish(station) then Err(TypeError)
    else
      var location := Prop(station, "location");
      if Nullish(location) then Err(TypeError)
      else
        var properties := Properties(
          Prop(station, "site_id"), Prop(station, "brand"), Prop(station, "address"),
          Prop(station, "postcode"), Prop(station, "prices"), Prop(station, "source"),
          Prop(station, "last_updated"));
        Ok(Feature(properties, Point([Prop(location, "longitude"), Prop(location, "latitude")])))
  }

  /** `stationsToGeoJSON(stations)`: the features of the stations in order;
      it throws as soon as one station cannot be converted. */
  function StationsToGeoJSON(stations: seq<Value>): (r: Result<FeatureCollection>)
    ensures r.Ok? <==> forall i :: 0 <= i < |stations| ==> StationToFeature(stations[i]).Ok?
    ensures r.Err? ==> r.error == TypeError
    ensures r.Ok? ==> |r.value.features| == |stations|
    ensures r.Ok? ==> forall i :: 0 <= i < |stations| ==> r.value.features[i] == StationToFeature(stations[i]).value
    decreases |stations|
  {
    if |stations| == 0 then Ok(FeatureCollection([]))
    else
      match StationToFeature(stations[0])
      case Err(e) => Err(e)
      case Ok(first) =>
        match StationsToGeoJSON(stations[1..])
        case Err(e) => Err(e)
        case Ok(rest) => Ok(FeatureCollection([first] + rest.features))
  }

  /** Whether every station of the list converts. */
  predicate AllConvert(stations: seq<Value>) {
    forall i :: 0 <= i < |stations| ==> StationToFeature(stations[i]).Ok?
  }

  /** Converting a concatenation converts each part: the features keep the
      stations' order. */
  lemma GeoJsonConcat(a: seq<Value>, b: seq<Value>)
    ensures StationsToGeoJSON(a + b).Ok? <==> StationsToGeoJSON(a).Ok? && StationsToGeoJSON(b).Ok?
    ensures StationsToGeoJSON(a + b).Ok? ==>
              StationsToGeoJSON(a + b).value.features
              == StationsToGeoJSON(a).value.features + StationsToGeoJSON(b).value.features
  {
    AllConvertConcat(a, b);
    if StationsToGeoJSON(a + b).Ok? {
      FeaturesConcat(a, b);
    }
  }

  /** Every station of a concatenation converts exactly when every station of
      each part does. */
  lemma AllConvertConcat(a: seq<Value>, b: seq<Value>)
    ensures AllConvert(a + b) <==> AllConvert(a) && AllConvert(b)
  {
    var ab := a + b;
    assert forall i :: 0 <= i < |a| ==> ab[i] == a[i];
    assert forall i :: 0 <= i < |b| ==> ab[|a| + i] == b[i];
    if AllConvert(a) && AllConvert(b) {
      forall i | 0 <= i < |ab| ensures StationToFeature(ab[i]).Ok? {
        if i >= |a| {
          assert ab[i] == b[i - |a|];
        }
      }
    }
  }

  /** The features of a convertible concatenation: those of the first part,
      then those of the second. */
  lemma FeaturesConcat(a: seq<Value>, b: seq<Value>)
    requires AllConvert(a) && AllConvert(b) && AllConvert(a + b)
    ensures StationsToGeoJSON(a + b).value.features
            == StationsToGeoJSON(a).value.features + StationsToGeoJSON(b).value.features
  {
    FeaturesPrefix(a, b);
    FeaturesSuffix(a, b);
    SplitAt(StationsToGeoJSON(a + b).value.features, |a|,
            StationsToGeoJSON(a).value.features, StationsToGeoJSON(b).value.features);
  }

  lemma FeaturesPrefix(a: seq<Value>, b: seq<Value>)
    requires AllConvert(a) && AllConvert(a + b)
    ensures |StationsToGeoJSON(a + b).value.features| == |a| + |b|
    ensures StationsToGeoJSON(a + b).value.features[..|a|] == StationsToGeoJSON(a).value.features
  {
    var ab := a + b;
    var fab := StationsToGeoJSON(ab).value.features;
    var fa := StationsToGeoJSON(a).value.features;
    forall i | 0 <= i < |a| ensures fab[i] == fa[i] {
      assert ab[i] == a[i];
    }
  }

  lemma FeaturesSuffix(a: seq<Value>, b: seq<Value>)
    requires AllConvert(b) && AllConvert(a + b)
    ensures |StationsToGeoJSON(a + b).value.features| == |a| + |b|
    ensures StationsToGeoJSON(a + b).value.features[|a|..] == StationsToGeoJSON(b).value.features
  {
    var ab := a + b;
    var fab := StationsToGeoJSON(ab).value.features;
    var fb := StationsToGeoJSON(b).value.features;
    forall i | 0 <= i < |b| ensures fab[|a| + i] == fb[i] {
      assert ab[|a| + i] == b[i];
    }
  }

  /** A normalised station with a location becomes a feature whose source and
      update time are the ones normalisation stamped on it. */
  lemma FeatureKeepsProvenance(station: Value, src: Source, lastUpdated: Value)
    requires !Nullish(Prop(station, "location"))
    ensures var f := StationToFeature(Stamp(station, src, lastUpdated));
            && f.Ok?
            && f.value.properties.source == SourceValue(src)
            && f.value.properties.lastUpdated == lastUpdated
            && f.value.properties.siteId == Prop(station, "site_id")
  {
    var stamped := Stamp(station, src, lastUpdated);
    assert Prop(stamped, "location") == Prop(station, "location");
  }

  /** The stations a feed contributes convert exactly when each of them has a
      location, and then each feature carries the feed's source. */
  lemma FeedConverts(response: Value, src: Source)
    requires NormaliseData(response, src).Ok?
    ensures var records := NormaliseData(response, src).value;
            var g := StationsToGeoJSON(records);
            && (g.Ok? <==> forall i :: 0 <= i < |records| ==> !Nullish(Prop(records[i], "location")))
            && (g.Ok? ==> forall i :: 0 <= i < |records| ==> g.value.features[i].properties.source == SourceValue(src))
  {
    var records := NormaliseData(response, src).value;
    forall i | 0 <= i < |records|
      ensures !Nullish(records[i])
      ensures StationToFeature(records[i]).Ok? ==> StationToFeature(records[i]).value.properties.source == SourceValue(src)
    {
      assert records[i].Obj?;
    }
  }
}
