/**
 * The iOS `GoogleMapConfig`, built from the `config` object of a `create`
 * call: the required keys are checked in a fixed order and the first one
 * missing (or of the wrong type) is reported; width and height are rounded;
 * the zoom is clamped into the optional `[minZoom, maxZoom]` range after an
 * inverted range has been put in order.
 */
module IosMapConfig {
  import opened Wrappers
  import opened Json
  import opened SwiftJson

  datatype LatLng = LatLng(lat: real, lng: real)

  datatype GoogleMapConfig = GoogleMapConfig(
    width: real, height: real, x: real, y: real, center: LatLng, zoom: real, mapId: Option<string>)

  /** `GoogleMapErrors.invalidArguments` */
  datatype GoogleMapError = InvalidArguments(message: string)

  const MissingPropertyPrefix: string := "GoogleMapConfig object is missing the required '"

  function MissingProperty(key: string): string
  {
    MissingPropertyPrefix + key + "' property"
  }

  const LatLngMissing: string := "LatLng object is missing the required 'lat' and/or 'lng' property"

  /** Different keys are reported with different messages, none of them the `LatLng` one. */
  lemma MissingPropertyInjective(a: string, b: string)
    ensures MissingProperty(a) == MissingProperty(b) ==> a == b
    ensures MissingProperty(a) != LatLngMissing
  {
    var prefix := MissingPropertyPrefix;
    if MissingProperty(a) == MissingProperty(b) {
      assert |a| == |b|;
      forall i | 0 <= i < |a| ensures a[i] == b[i] {
        assert a[i] == MissingProperty(a)[|prefix| + i];
        assert b[i] == MissingProperty(b)[|prefix| + i];
      }
    }
    // The prefix ends in a quote where the `LatLng` message has the slash of "and/or".
    assert MissingProperty(a)[47] == MissingPropertyPrefix[47] == '\'';
    assert LatLngMissing[47] == '/';
  }

  /** The required keys, in the order they are checked; `center` must be an object, the rest numbers. */
  const RequiredKeys: seq<string> := ["width", "height", "x", "y", "zoom", "center"]

  predicate Supplies(o: Object, key: string)
  {
    if key == "center" then ObjectAt(o, key).Some? else NumberAt(o, key).Some?
  }

  /** The position in `keys` of the first key `o` does not supply. */
  function FirstUnsupplied(o: Object, keys: seq<string>): (r: Option<nat>)
    ensures r.Some? ==> r.value < |keys| && !Supplies(o, keys[r.value])
    ensures r.Some? ==> forall j | 0 <= j < r.value :: Supplies(o, keys[j])
    ensures r.None? <==> forall j | 0 <= j < |keys| :: Supplies(o, keys[j])
  {
    if keys == [] then None
    else if !Supplies(o, keys[0]) then Some(0)
    else
      match FirstUnsupplied(o, keys[1..])
      case None => None
      case Some(i) => Some(i + 1)
  }

  /** Every required key is supplied. */
  predicate SuppliesRequired(o: Object)
  {
    && Supplies(o, "width") && Supplies(o, "height") && Supplies(o, "x") && Supplies(o, "y")
    && Supplies(o, "zoom") && Supplies(o, "center")
  }

  /** The center object carries a numeric `lat` and `lng`. */
  predicate CenterComplete(o: Object)
  {
    ObjectAt(o, "center").Some?
    && NumberAt(ObjectAt(o, "center").value, "lat").Some?
    && NumberAt(ObjectAt(o, "center").value, "lng").Some?
  }

  /** Foundation's `round`: to the nearest whole number, halves away from zero. */
  function Round(x: real): (r: int)
    ensures x - 0.5 <= r as real <= x + 0.5
    ensures r as real == x + 0.5 ==> x > 0.0
    ensures r as real == x - 0.5 ==> x < 0.0
  {
    if x >= 0.0 then (x + 0.5).Floor else -((-x + 0.5).Floor)
  }

  function RealMin(a: real, b: real): real
  {
    if a <= b then a else b
  }

  function RealMax(a: real, b: real): real
  {
    if a <= b then b else a
  }

  /** `swap(&minZoom, &maxZoom)` when both are given and inverted. */
  function OrderBounds(minZoom: Option<real>, maxZoom: Option<real>): (r: (Option<real>, Option<real>))
    ensures r.0.Some? && r.1.Some? ==> r.0.value <= r.1.value
    ensures multiset{r.0, r.1} == multiset{minZoom, maxZoom}
    ensures minZoom.None? || maxZoom.None? ==> r == (minZoom, maxZoom)
  {
    if minZoom.Some? && maxZoom.Some? && minZoom.value > maxZoom.value then (maxZoom, minZoom)
    else (minZoom, maxZoom)
  }

  /** The clamp: the upper bound is checked first, then the lower one. */
  function Clamp(zoom: real, lower: Option<real>, upper: Option<real>): real
  {
    if upper.Some? && zoom > upper.value then upper.value
    else if lower.Some? && zoom < lower.value then lower.value
    else zoom
  }

  /** The zoom the map starts at. */
  function EffectiveZoom(zoom: real, minZoom: Option<real>, maxZoom: Option<real>): (r: real)
    ensures minZoom.Some? && maxZoom.Some? ==>
              RealMin(minZoom.value, maxZoom.value) <= r <= RealMax(minZoom.value, maxZoom.value)
    ensures minZoom.Some? && maxZoom.Some? && RealMin(minZoom.value, maxZoom.value) <= zoom <= RealMax(minZoom.value, maxZoom.value) ==> r == zoom
    ensures minZoom.None? && maxZoom.None? ==> r == zoom
    ensures minZoom.None? && maxZoom.Some? ==> r == RealMin(zoom, maxZoom.value)
    ensures minZoom.Some? && maxZoom.None? ==> r == RealMax(zoom, minZoom.value)
  {
    var bounds := OrderBounds(minZoom, maxZoom);
    Clamp(zoom, bounds.0, bounds.1)
  }

  /** Clamping an already clamped zoom changes nothing. */
  lemma EffectiveZoomIdempotent(zoom: real, minZoom: Option<real>, maxZoom: Option<real>)
    ensures EffectiveZoom(EffectiveZoom(zoom, minZoom, maxZoom), minZoom, maxZoom) == EffectiveZoom(zoom, minZoom, maxZoom)
  {
  }

  /** `GoogleMapConfig(fromJSObject:)` */
  function ParseConfig(o: Object): (r: Result<GoogleMapConfig, GoogleMapError>)
    ensures r.Success? <==> SuppliesRequired(o) && CenterComplete(o)
    ensures r.Success? ==>
              && (forall key | key in RequiredKeys :: key in o)
              && r.value.width == Round(o["width"].n) as real && r.value.height == Round(o["height"].n) as real
              && r.value.x == o["x"].n && r.value.y == o["y"].n
              && r.value.center == LatLng(o["center"].fields["lat"].n, o["center"].fields["lng"].n)
              && r.value.zoom == EffectiveZoom(o["zoom"].n, NumberAt(o, "minZoom"), NumberAt(o, "maxZoom"))
              && r.value.mapId == StringAt(o, "iOSMapId")
  {
    var width :- Require(NumberAt(o, "width"), InvalidArguments(MissingProperty("width")));
    var height :- Require(NumberAt(o, "height"), InvalidArguments(MissingProperty("height")));
    var x :- Require(NumberAt(o, "x"), InvalidArguments(MissingProperty("x")));
    var y :- Require(NumberAt(o, "y"), InvalidArguments(MissingProperty("y")));
    var zoom :- Require(NumberAt(o, "zoom"), InvalidArguments(MissingProperty("zoom")));
    var latLngObj :- Require(ObjectAt(o, "center"), InvalidArguments(MissingProperty("center")));
    var lat :- Require(NumberAt(latLngObj, "lat"), InvalidArguments(LatLngMissing));
    var lng :- Require(NumberAt(latLngObj, "lng"), InvalidArguments(LatLngMissing));
    Success(GoogleMapConfig(
      Round(width) as real, Round(height) as real, x, y, LatLng(lat, lng),
      EffectiveZoom(zoom, NumberAt(o, "minZoom"), NumberAt(o, "maxZoom")),
      StringAt(o, "iOSMapId")))
  }

  /** The first required key the config lacks is the one reported; with all present, an incomplete center is. */
  lemma ParseConfigFailures(o: Object)
    ensures FirstUnsupplied(o, RequiredKeys).Some? ==>
              ParseConfig(o) == Failure(InvalidArguments(MissingProperty(RequiredKeys[FirstUnsupplied(o, RequiredKeys).value])))
    ensures FirstUnsupplied(o, RequiredKeys).None? && !CenterComplete(o) ==> ParseConfig(o) == Failure(InvalidArguments(LatLngMissing))
  {
    var keys := RequiredKeys;
    var first := FirstUnsupplied(o, keys);
    var n := if first.Some? then first.value else |keys|;
    if 0 < n { assert Supplies(o, keys[0]) && keys[0] == "width"; }
    if 1 < n { assert Supplies(o, keys[1]) && keys[1] == "height"; }
    if 2 < n { assert Supplies(o, keys[2]) && keys[2] == "x"; }
    if 3 < n { assert Supplies(o, keys[3]) && keys[3] == "y"; }
    if 4 < n { assert Supplies(o, keys[4]) && keys[4] == "zoom"; }
    if 5 < n { assert Supplies(o, keys[5]) && keys[5] == "center"; }
  }

  /**
   * A config is rejected for a missing key exactly when every key checked
   * before it is supplied and that key is not.
   */
  lemma ReportsFirstMissingKey(o: Object, i: nat)
    requires i < |RequiredKeys|
    ensures ParseConfig(o) == Failure(InvalidArguments(MissingProperty(RequiredKeys[i]))) <==>
              (forall j | 0 <= j < i :: Supplies(o, RequiredKeys[j])) && !Supplies(o, RequiredKeys[i])
  {
    var first := FirstUnsupplied(o, RequiredKeys);
    ParseConfigFailures(o);
    if ParseConfig(o) == Failure(InvalidArguments(MissingProperty(RequiredKeys[i]))) {
      if first.Some? {
        MissingPropertyInjective(RequiredKeys[i], RequiredKeys[first.value]);
        assert RequiredKeys[i] == RequiredKeys[first.value];
        assert forall p, q | 0 <= p < q < |RequiredKeys| :: RequiredKeys[p] != RequiredKeys[q];
        assert i == first.value;
      } else {
        MissingPropertyInjective(RequiredKeys[i], RequiredKeys[i]);
        assert SuppliesRequired(o) by {
          var keys := RequiredKeys;
          assert Supplies(o, keys[0]) && Supplies(o, keys[1]) && Supplies(o, keys[2]);
          assert Supplies(o, keys[3]) && Supplies(o, keys[4]) && Supplies(o, keys[5]);
        }
      }
    }
    if (forall j | 0 <= j < i :: Supplies(o, RequiredKeys[j])) && !Supplies(o, RequiredKeys[i]) {
      assert first.Some?;
      assert first.value == i;
    }
  }

  /** A config whose zoom bounds are both given and inverted is treated as the ordered range. */
  lemma InvertedBoundsAreSwapped(zoom: real, lo: real, hi: real)
    requires lo < hi
    ensures EffectiveZoom(zoom, Some(hi), Some(lo)) == EffectiveZoom(zoom, Some(lo), Some(hi))
  {
  }
}
