/**
 * The Android `GoogleMapConfig` and `GoogleMapConfigRestriction`, built
 * from the `config` object of a `create` call. The config is a class whose
 * fields start at their declared defaults and are overwritten by its
 * initialiser, step by step; `ParseConfig` is the value the initialiser
 * computes. Unlike iOS, Android keeps an inverted zoom range as given: the
 * swap guard tests the field `maxZoom`, which is still `null` when it runs.
 */
module AndroidMapConfig {
  import opened Wrappers
  import opened Json
  import opened OrgJson
  import IosMapConfig

  /** `InvalidArgumentsError`, thrown by the plugin, and `JSONException`, thrown by an accessor. */
  datatype AndroidError = InvalidArgumentsError(message: string) | JSONException(key: string)

  datatype LatLng = LatLng(lat: real, lng: real)

  /** `LatLngBounds(southwest, northeast)` */
  datatype LatLngBounds = LatLngBounds(southwest: LatLng, northeast: LatLng)

  const MissingPropertyPrefix: string := "GoogleMapConfig object is missing the required '"

  function MissingProperty(key: string): string
  {
    MissingPropertyPrefix + key + "' property"
  }

  const LatLngMissing: string := "LatLng object is missing the required 'lat' and/or 'lng' property"

  const MissingRestrictionPrefix: string := "GoogleMapConfigRestriction object is missing the required '"

  function MissingRestrictionProperty(key: string): string
  {
    MissingRestrictionPrefix + key + "' property"
  }

  /** The keys checked with `has`, in order; `devicePixelRatio` is read between `zoom` and `center`. */
  const RequiredKeys: seq<string> := ["width", "height", "x", "y", "zoom", "center"]

  /** The keys of `latLngBounds` checked with `has`, in order. */
  const BoundsKeys: seq<string> := ["north", "south", "east", "west"]

  /** The position in `keys` of the first key absent from `o`. */
  function FirstAbsent(o: Object, keys: seq<string>): (r: Option<nat>)
    ensures r.Some? ==> r.value < |keys| && keys[r.value] !in o
    ensures r.Some? ==> forall j | 0 <= j < r.value :: keys[j] in o
    ensures r.None? <==> forall j | 0 <= j < |keys| :: keys[j] in o
  {
    if keys == [] then None
    else if keys[0] !in o then Some(0)
    else
      match FirstAbsent(o, keys[1..])
      case None => None
      case Some(i) => Some(i + 1)
  }

  /** `GoogleMapConfigRestriction(fromJSONObject)`: the `latLngBounds` of a `restriction` object. */
  function ParseRestriction(o: Object): (r: Result<LatLngBounds, AndroidError>)
    ensures !Has(o, "latLngBounds") ==> r == Failure(InvalidArgumentsError(MissingRestrictionProperty("latLngBounds")))
    ensures r.Success? ==>
              && ObjectAt(o, "latLngBounds").Some?
              && var b := ObjectAt(o, "latLngBounds").value;
                 && (forall k | k in BoundsKeys :: k in b && b[k].JNum?)
                 && r.value.southwest == LatLng(b["south"].n, b["west"].n)
                 && r.value.northeast == LatLng(b["north"].n, b["east"].n)
  {
    if !Has(o, "latLngBounds") then Failure(InvalidArgumentsError(MissingRestrictionProperty("latLngBounds")))
    else
    var b :- Require(ObjectAt(o, "latLngBounds"), JSONException("latLngBounds"));
    :- Need(Has(b, "north"), InvalidArgumentsError(MissingRestrictionProperty("latLngBounds.north")));
    :- Need(Has(b, "south"), InvalidArgumentsError(MissingRestrictionProperty("latLngBounds.south")));
    :- Need(Has(b, "east"), InvalidArgumentsError(MissingRestrictionProperty("latLngBounds.east")));
    :- Need(Has(b, "west"), InvalidArgumentsError(MissingRestrictionProperty("latLngBounds.west")));
    var north :- Require(NumberAt(b, "north"), JSONException("north"));
    var south :- Require(NumberAt(b, "south"), JSONException("south"));
    var east :- Require(NumberAt(b, "east"), JSONException("east"));
    var west :- Require(NumberAt(b, "west"), JSONException("west"));
    Success(LatLngBounds(LatLng(south, west), LatLng(north, east)))
  }

  /** A bounds object lacking a key is reported for the first absent key, in the order north, south, east, west. */
  lemma RestrictionReportsFirstAbsent(o: Object)
    requires Has(o, "latLngBounds") && ObjectAt(o, "latLngBounds").Some?
    ensures var b := ObjectAt(o, "latLngBounds").value;
            var first := FirstAbsent(b, BoundsKeys);
            first.Some? ==>
              ParseRestriction(o) == Failure(InvalidArgumentsError(MissingRestrictionProperty("latLngBounds." + BoundsKeys[first.value])))
  {
    var b := ObjectAt(o, "latLngBounds").value;
    var keys := BoundsKeys;
    var first := FirstAbsent(b, keys);
    var n := if first.Some? then first.value else |keys|;
    if 0 < n { assert keys[0] in b && keys[0] == "north"; }
    if 1 < n { assert keys[1] in b && keys[1] == "south"; }
    if 2 < n { assert keys[2] in b && keys[2] == "east"; }
    assert "latLngBounds." + "north" == "latLngBounds.north";
    assert "latLngBounds." + "south" == "latLngBounds.south";
    assert "latLngBounds." + "east" == "latLngBounds.east";
    assert "latLngBounds." + "west" == "latLngBounds.west";
  }

  /** A bounds object whose four keys are all numbers parses, spanning from its south-west corner to its north-east corner. */
  lemma RestrictionCorners(o: Object)
    requires ObjectAt(o, "latLngBounds").Some?
    requires var b := ObjectAt(o, "latLngBounds").value;
             forall k | k in BoundsKeys :: k in b && b[k].JNum?
    ensures var b := ObjectAt(o, "latLngBounds").value;
            ParseRestriction(o) == Success(LatLngBounds(LatLng(b["south"].n, b["west"].n), LatLng(b["north"].n, b["east"].n)))
  {
  }

  /** What `GoogleMapConfig` holds once its initialiser has run. */
  datatype ConfigFields = ConfigFields(
    width: int, height: int, x: int, y: int, center: LatLng, zoom: int, liteMode: bool,
    devicePixelRatio: real, styles: Option<string>, mapId: Option<string>,
    minZoom: Option<int>, maxZoom: Option<int>, mapTypeId: Option<string>,
    restriction: Option<LatLngBounds>, heading: Option<real>)

  /** The declared initial values of the fields. */
  const Defaults: ConfigFields :=
    ConfigFields(0, 0, 0, 0, LatLng(0.0, 0.0), 0, false, 1.0, None, None, None, None, None, None, None)

  /** An optional key read as `null` when absent, through `get` when present. */
  function Optional<T>(o: Object, key: string, get: Option<T>): Result<Option<T>, AndroidError>
  {
    if key !in o then Success(None)
    else if get.None? then Failure(JSONException(key))
    else Success(get)
  }

  /** The zoom clamp: the upper bound is checked first, then the lower one. */
  function Clamp(zoom: int, minZoom: Option<int>, maxZoom: Option<int>): (r: int)
    ensures minZoom.Some? && maxZoom.Some? && minZoom.value <= maxZoom.value ==> minZoom.value <= r <= maxZoom.value
    ensures minZoom.Some? && maxZoom.Some? && minZoom.value <= zoom <= maxZoom.value ==> r == zoom
    ensures minZoom.Some? && maxZoom.Some? && minZoom.value > maxZoom.value ==> r == minZoom.value || r == maxZoom.value
  {
    if maxZoom.Some? && zoom > maxZoom.value then maxZoom.value
    else if minZoom.Some? && zoom < minZoom.value then minZoom.value
    else zoom
  }

  /** Where both platforms are given an ordered zoom range, they start at the same zoom. */
  lemma ClampAgreesWithIos(zoom: int, minZoom: int, maxZoom: int)
    requires minZoom <= maxZoom
    ensures Clamp(zoom, Some(minZoom), Some(maxZoom)) as real
            == IosMapConfig.EffectiveZoom(zoom as real, Some(minZoom as real), Some(maxZoom as real))
  {
  }

  /** An inverted range: iOS swaps it and keeps zoom 7 inside [5, 10]; Android clamps 7 down to 5, below `minZoom`. */
  lemma InvertedRangeDiverges()
    ensures Clamp(7, Some(10), Some(5)) == 5
    ensures IosMapConfig.EffectiveZoom(7.0, Some(10.0), Some(5.0)) == 7.0
  {
  }

  /** What the `has` checks of the initialiser establish: the pixel ratio and the center object. */
  datatype Checked = Checked(devicePixelRatio: real, center: Object)

  /** The `has` checks, with the `devicePixelRatio` read that sits between them. */
  function CheckConfig(o: Object): (r: Result<Checked, AndroidError>)
    ensures FirstAbsent(o, RequiredKeys).Some? ==> r.Failure?
    ensures r.Success? ==>
              && (forall k | k in RequiredKeys :: k in o)
              && ObjectAt(o, "center") == Some(r.value.center)
              && "lat" in r.value.center && "lng" in r.value.center
              && ("devicePixelRatio" in o ==> o["devicePixelRatio"].JNum?)
              && r.value.devicePixelRatio == (if "devicePixelRatio" in o then o["devicePixelRatio"].n else 1.0)
  {
    if !Has(o, "width") then Failure(InvalidArgumentsError(MissingProperty("width")))
    else
    :- Need(Has(o, "height"), InvalidArgumentsError(MissingProperty("height")));
    :- Need(Has(o, "x"), InvalidArgumentsError(MissingProperty("x")));
    :- Need(Has(o, "y"), InvalidArgumentsError(MissingProperty("y")));
    :- Need(Has(o, "zoom"), InvalidArgumentsError(MissingProperty("zoom")));
    var devicePixelRatio :-
      if Has(o, "devicePixelRatio") then Require(NumberAt(o, "devicePixelRatio"), JSONException("devicePixelRatio"))
      else Success(Defaults.devicePixelRatio);
    :- Need(Has(o, "center"), InvalidArgumentsError(MissingProperty("center")));
    var center :- Require(ObjectAt(o, "center"), JSONException("center"));
    :- Need(Has(center, "lat") && Has(center, "lng"), InvalidArgumentsError(LatLngMissing));
    Success(Checked(devicePixelRatio, center))
  }

  /** `liteMode`: `androidLiteMode` when present, read with `getBoolean`; otherwise false. */
  function ReadLiteMode(o: Object): (r: Result<bool, AndroidError>)
    ensures r.Success? ==> (r.value <==> Has(o, "androidLiteMode") && GetBoolean(o, "androidLiteMode") == Some(true))
    ensures r.Failure? <==> Has(o, "androidLiteMode") && GetBoolean(o, "androidLiteMode").None?
  {
    if Has(o, "androidLiteMode") then Require(GetBoolean(o, "androidLiteMode"), JSONException("androidLiteMode"))
    else Success(false)
  }

  /** The size and the position. */
  datatype Frame = Frame(width: int, height: int, x: int, y: int)

  /** The reads of size and position. */
  function ReadFrame(o: Object): (r: Result<Frame, AndroidError>)
    ensures r.Success? <==> forall k | k in ["width", "height", "x", "y"] :: k in o && o[k].JNum?
    ensures r.Success? ==>
              r.value == Frame(TruncateTowardZero(o["width"].n), TruncateTowardZero(o["height"].n),
                               TruncateTowardZero(o["x"].n), TruncateTowardZero(o["y"].n))
  {
    var width :- Require(GetInt(o, "width"), JSONException("width"));
    var height :- Require(GetInt(o, "height"), JSONException("height"));
    var x :- Require(GetInt(o, "x"), JSONException("x"));
    var y :- Require(GetInt(o, "y"), JSONException("y"));
    Success(Frame(width, height, x, y))
  }

  /** The zoom and the zoom bounds as read; an absent bound is `null`. */
  datatype ZoomRead = ZoomRead(zoom: int, minZoom: Option<int>, maxZoom: Option<int>)

  /** The reads of `zoom`, `minZoom` and `maxZoom`. */
  function ReadZoom(o: Object): (r: Result<ZoomRead, AndroidError>)
    ensures r.Success? ==> "zoom" in o && o["zoom"].JNum? && r.value.zoom == TruncateTowardZero(o["zoom"].n)
    ensures r.Success? ==> (r.value.minZoom.Some? <==> "minZoom" in o) && (r.value.maxZoom.Some? <==> "maxZoom" in o)
    ensures r.Success? ==> r.value.minZoom == (if "minZoom" in o then GetInt(o, "minZoom") else None)
    ensures r.Success? ==> r.value.maxZoom == (if "maxZoom" in o then GetInt(o, "maxZoom") else None)
  {
    var zoom :- Require(GetInt(o, "zoom"), JSONException("zoom"));
    var minZoom :- Optional(o, "minZoom", GetInt(o, "minZoom"));
    var maxZoom :- Optional(o, "maxZoom", GetInt(o, "maxZoom"));
    Success(ZoomRead(zoom, minZoom, maxZoom))
  }

  /** The optional `restriction`, parsed only when the key is present. */
  function ReadRestriction(o: Object): (r: Result<Option<LatLngBounds>, AndroidError>)
    ensures r.Success? ==> (r.value.Some? <==> Has(o, "restriction"))
    ensures Has(o, "restriction") && ObjectAt(o, "restriction").Some? ==>
              r == (match ParseRestriction(ObjectAt(o, "restriction").value)
                    case Success(b) => Success(Some(b))
                    case Failure(e) => Failure(e))
  {
    if Has(o, "restriction") then
      var ro :- Require(ObjectAt(o, "restriction"), JSONException("restriction"));
      var bounds :- ParseRestriction(ro);
      Success(Some(bounds))
    else Success(None)
  }

  /** The map type and the center, read after the zoom. */
  datatype Place = Place(mapTypeId: Option<string>, center: LatLng)

  function ReadPlace(o: Object, center: Object): (r: Result<Place, AndroidError>)
    ensures r.Success? ==> (r.value.mapTypeId.Some? <==> "mapTypeId" in o)
    ensures r.Success? ==> r.value.mapTypeId == (if "mapTypeId" in o then StringAt(o, "mapTypeId") else None)
    ensures r.Success? ==>
              && "lat" in center && center["lat"].JNum? && "lng" in center && center["lng"].JNum?
              && r.value.center == LatLng(center["lat"].n, center["lng"].n)
  {
    var mapTypeId :- Optional(o, "mapTypeId", StringAt(o, "mapTypeId"));
    var lat :- Require(NumberAt(center, "lat"), JSONException("lat"));
    var lng :- Require(NumberAt(center, "lng"), JSONException("lng"));
    Success(Place(mapTypeId, LatLng(lat, lng)))
  }

  /** The styles, map id, restriction and heading, read last. */
  datatype Details = Details(styles: Option<string>, mapId: Option<string>, restriction: Option<LatLngBounds>, heading: Option<real>)

  function ReadDetails(o: Object): (r: Result<Details, AndroidError>)
    ensures r.Success? ==> (r.value.restriction.Some? <==> Has(o, "restriction"))
    ensures r.Success? ==> (r.value.mapId.Some? <==> "androidMapId" in o)
    ensures r.Success? ==> r.value.styles == (if "styles" in o then StringAt(o, "styles") else None)
    ensures r.Success? ==> r.value.mapId == (if "androidMapId" in o then StringAt(o, "androidMapId") else None)
    ensures r.Success? ==> r.value.heading == (if "heading" in o then NumberAt(o, "heading") else None)
    ensures r.Success? ==> ReadRestriction(o) == Success(r.value.restriction)
  {
    var styles :- Optional(o, "styles", StringAt(o, "styles"));
    var mapId :- Optional(o, "androidMapId", StringAt(o, "androidMapId"));
    var restriction :- ReadRestriction(o);
    var heading :- Optional(o, "heading", NumberAt(o, "heading"));
    Success(Details(styles, mapId, restriction, heading))
  }

  /** The fields the stages produce, with the zoom clamped into the bounds as read. */
  function Assemble(checked: Checked, liteMode: bool, frame: Frame, zoom: ZoomRead, place: Place, details: Details): ConfigFields
  {
    ConfigFields(
      frame.width, frame.height, frame.x, frame.y, place.center,
      Clamp(zoom.zoom, zoom.minZoom, zoom.maxZoom), liteMode, checked.devicePixelRatio,
      details.styles, details.mapId, zoom.minZoom, zoom.maxZoom, place.mapTypeId, details.restriction, details.heading)
  }

  /** `GoogleMapConfig(fromJSONObject)`: the fields its initialiser sets, or what it throws. */
  function ParseConfig(o: Object): (r: Result<ConfigFields, AndroidError>)
    ensures FirstAbsent(o, RequiredKeys).Some? ==> r.Failure?
    ensures r.Success? ==> (r.value.restriction.Some? <==> Has(o, "restriction"))
  {
    var checked :- CheckConfig(o);
    var liteMode :- ReadLiteMode(o);
    var frame :- ReadFrame(o);
    var zoom :- ReadZoom(o);
    var place :- ReadPlace(o, checked.center);
    var details :- ReadDetails(o);
    Success(Assemble(checked, liteMode, frame, zoom, place, details))
  }

  /** What a parsed config holds. */
  lemma ParsedConfig(o: Object)
    ensures FirstAbsent(o, RequiredKeys).Some? ==> ParseConfig(o).Failure?
    ensures ParseConfig(o).Success? ==>
              var r := ParseConfig(o).value;
              && (forall k | k in RequiredKeys :: k in o)
              && ("devicePixelRatio" in o ==> o["devicePixelRatio"].JNum?)
              && r.devicePixelRatio == (if "devicePixelRatio" in o then o["devicePixelRatio"].n else 1.0)
              && (r.liteMode <==> Has(o, "androidLiteMode") && GetBoolean(o, "androidLiteMode") == Some(true))
              && "zoom" in o && o["zoom"].JNum?
              && r.zoom == Clamp(TruncateTowardZero(o["zoom"].n), r.minZoom, r.maxZoom)
              && (r.minZoom.Some? <==> "minZoom" in o) && (r.maxZoom.Some? <==> "maxZoom" in o)
              && (r.restriction.Some? <==> Has(o, "restriction"))
              && r.width == TruncateTowardZero(o["width"].n) && r.height == TruncateTowardZero(o["height"].n)
              && r.x == TruncateTowardZero(o["x"].n) && r.y == TruncateTowardZero(o["y"].n)
              && o["center"].JObj? && r.center == LatLng(o["center"].fields["lat"].n, o["center"].fields["lng"].n)
              && r.minZoom == (if "minZoom" in o then GetInt(o, "minZoom") else None)
              && r.maxZoom == (if "maxZoom" in o then GetInt(o, "maxZoom") else None)
              && r.mapTypeId == (if "mapTypeId" in o then StringAt(o, "mapTypeId") else None)
              && r.styles == (if "styles" in o then StringAt(o, "styles") else None)
              && r.mapId == (if "androidMapId" in o then StringAt(o, "androidMapId") else None)
              && r.heading == (if "heading" in o then NumberAt(o, "heading") else None)
              && r.restriction == ReadRestriction(o).value
  {
  }

  /** A config lacking a required key is rejected for the first one absent (or for a malformed pixel ratio read before `center`). */
  lemma ReportsFirstAbsentKey(o: Object)
    requires FirstAbsent(o, RequiredKeys).Some?
    ensures var first := FirstAbsent(o, RequiredKeys).value;
            ParseConfig(o) == if first == 5 && "devicePixelRatio" in o && NumberAt(o, "devicePixelRatio").None?
                              then Failure(JSONException("devicePixelRatio"))
                              else Failure(InvalidArgumentsError(MissingProperty(RequiredKeys[first])))
  {
    var keys := RequiredKeys;
    var n := FirstAbsent(o, keys).value;
    if 0 < n { assert keys[0] in o && keys[0] == "width"; }
    if 1 < n { assert keys[1] in o && keys[1] == "height"; }
    if 2 < n { assert keys[2] in o && keys[2] == "x"; }
    if 3 < n { assert keys[3] in o && keys[3] == "y"; }
    if 4 < n { assert keys[4] in o && keys[4] == "zoom"; }
  }

  /** Android never reorders the zoom bounds: they are stored as read, even when inverted. */
  lemma BoundsNeverSwapped(o: Object, minZoom: int, maxZoom: int)
    requires ParseConfig(o).Success?
    requires GetInt(o, "minZoom") == Some(minZoom) && GetInt(o, "maxZoom") == Some(maxZoom)
    ensures ParseConfig(o).value.minZoom == Some(minZoom) && ParseConfig(o).value.maxZoom == Some(maxZoom)
  {
  }

  /** An Android config whose fields the initialiser overwrites one by one. */
  class GoogleMapConfig {
    var width: int
    var height: int
    var x: int
    var y: int
    var center: LatLng
    var zoom: int
    var liteMode: bool
    var devicePixelRatio: real
    var styles: Option<string>
    var mapId: Option<string>
    var minZoom: Option<int>
    var maxZoom: Option<int>
    var mapTypeId: Option<string>
    var restriction: Option<LatLngBounds>
    var heading: Option<real>

    function Fields(): ConfigFields
      reads this
    {
      ConfigFields(width, height, x, y, center, zoom, liteMode, devicePixelRatio, styles, mapId,
                   minZoom, maxZoom, mapTypeId, restriction, heading)
    }

    /** The declared initial values. */
    constructor ()
      ensures Fields() == Defaults
    {
      width, height, x, y := 0, 0, 0, 0;
      center := LatLng(0.0, 0.0);
      zoom := 0;
      liteMode := false;
      devicePixelRatio := 1.0;
      styles, mapId := None, None;
      minZoom, maxZoom := None, None;
      mapTypeId, restriction, heading := None, None, None;
    }

    /**
     * The initialiser body, run on a config still at its defaults: on
     * success the fields are those `ParseConfig` computes; otherwise the
     * error is the one `ParseConfig` reports.
     */
    method Init(o: Object) returns (outcome: Outcome<AndroidError>)
      requires Fields() == Defaults
      modifies this
      ensures outcome.Pass? <==> ParseConfig(o).Success?
      ensures outcome.Pass? ==> Fields() == ParseConfig(o).value
      ensures outcome.Fail? ==> outcome.error == ParseConfig(o).error
    {
      var checked := CheckKeys(o);
      if checked.Failure? {
        return Fail(checked.error);
      }
      var step := ReadLiteModeField(o);
      if step.Fail? { return step; }
      step := ReadFrameFields(o);
      if step.Fail? { return step; }
      step := ReadZoomFields(o);
      if step.Fail? { return step; }
      step := ReadPlaceFields(o, checked.value);
      if step.Fail? { return step; }
      outcome := ReadDetailFields(o);
    }

    /** The `has` checks; only `devicePixelRatio` is assigned on the way. */
    method CheckKeys(o: Object) returns (r: Result<Object, AndroidError>)
      requires Fields() == Defaults
      modifies this
      ensures r.Success? <==> CheckConfig(o).Success?
      ensures r.Failure? ==> r.error == CheckConfig(o).error
      ensures r.Success? ==> r.value == CheckConfig(o).value.center
                             && Fields() == Defaults.(devicePixelRatio := CheckConfig(o).value.devicePixelRatio)
    {
      if !Has(o, "width") { return Failure(InvalidArgumentsError(MissingProperty("width"))); }
      if !Has(o, "height") { return Failure(InvalidArgumentsError(MissingProperty("height"))); }
      if !Has(o, "x") { return Failure(InvalidArgumentsError(MissingProperty("x"))); }
      if !Has(o, "y") { return Failure(InvalidArgumentsError(MissingProperty("y"))); }
      if !Has(o, "zoom") { return Failure(InvalidArgumentsError(MissingProperty("zoom"))); }
      if Has(o, "devicePixelRatio") {
        var d := NumberAt(o, "devicePixelRatio");
        if d.None? { return Failure(JSONException("devicePixelRatio")); }
        devicePixelRatio := d.value;
      }
      if !Has(o, "center") { return Failure(InvalidArgumentsError(MissingProperty("center"))); }
      var c := ObjectAt(o, "center");
      if c.None? { return Failure(JSONException("center")); }
      if !Has(c.value, "lat") || !Has(c.value, "lng") {
        return Failure(InvalidArgumentsError(LatLngMissing));
      }
      return Success(c.value);
    }

    /** `liteMode = has("androidLiteMode") && getBoolean("androidLiteMode")` */
    method ReadLiteModeField(o: Object) returns (outcome: Outcome<AndroidError>)
      modifies this
      ensures outcome.Pass? <==> ReadLiteMode(o).Success?
      ensures outcome.Fail? ==> outcome.error == ReadLiteMode(o).error
      ensures outcome.Pass? ==> Fields() == old(Fields()).(liteMode := ReadLiteMode(o).value)
    {
      var lite := false;
      if Has(o, "androidLiteMode") {
        var b := GetBoolean(o, "androidLiteMode");
        if b.None? { return Fail(JSONException("androidLiteMode")); }
        lite := b.value;
      }
      liteMode := lite;
      return Pass;
    }

    /** Size and position. */
    method ReadFrameFields(o: Object) returns (outcome: Outcome<AndroidError>)
      modifies this
      ensures outcome.Pass? <==> ReadFrame(o).Success?
      ensures outcome.Fail? ==> outcome.error == ReadFrame(o).error
      ensures outcome.Pass? ==>
                var f := ReadFrame(o).value;
                Fields() == old(Fields()).(width := f.width, height := f.height, x := f.x, y := f.y)
    {
      var w := GetInt(o, "width");
      if w.None? { return Fail(JSONException("width")); }
      width := w.value;
      var h := GetInt(o, "height");
      if h.None? { return Fail(JSONException("height")); }
      height := h.value;
      var xv := GetInt(o, "x");
      if xv.None? { return Fail(JSONException("x")); }
      x := xv.value;
      var yv := GetInt(o, "y");
      if yv.None? { return Fail(JSONException("y")); }
      y := yv.value;
      return Pass;
    }

    /** The zoom and its bounds, with the swap guard that tests the field `maxZoom`. */
    method ReadZoomFields(o: Object) returns (outcome: Outcome<AndroidError>)
      requires maxZoom.None?
      modifies this
      ensures outcome.Pass? <==> ReadZoom(o).Success?
      ensures outcome.Fail? ==> outcome.error == ReadZoom(o).error
      ensures outcome.Pass? ==>
                var z := ReadZoom(o).value;
                Fields() == old(Fields()).(zoom := Clamp(z.zoom, z.minZoom, z.maxZoom), minZoom := z.minZoom, maxZoom := z.maxZoom)
    {
      var z := GetInt(o, "zoom");
      if z.None? { return Fail(JSONException("zoom")); }
      var minRead := Optional(o, "minZoom", GetInt(o, "minZoom"));
      if minRead.Failure? { return Fail(minRead.error); }
      var maxRead := Optional(o, "maxZoom", GetInt(o, "maxZoom"));
      if maxRead.Failure? { return Fail(maxRead.error); }
      var localMin, localMax := minRead.value, maxRead.value;
      // The guard tests the field `maxZoom`, still null here, so the swap never runs.
      if localMin.Some? && localMax.Some? && localMin.value > localMax.value && maxZoom.Some? {
        localMin, localMax := localMax, localMin;
      }
      minZoom := localMin;
      maxZoom := localMax;
      zoom := Clamp(z.value, localMin, localMax);
      return Pass;
    }

    /** `restriction`, built only when the key is present. */
    method ReadRestrictionField(o: Object) returns (outcome: Outcome<AndroidError>)
      modifies this
      ensures outcome.Pass? <==> ReadRestriction(o).Success?
      ensures outcome.Fail? ==> outcome.error == ReadRestriction(o).error
      ensures outcome.Pass? ==> Fields() == old(Fields()).(restriction := ReadRestriction(o).value)
    {
      if Has(o, "restriction") {
        var ro := ObjectAt(o, "restriction");
        if ro.None? { return Fail(JSONException("restriction")); }
        var bounds := ParseRestriction(ro.value);
        if bounds.Failure? { return Fail(bounds.error); }
        restriction := Some(bounds.value);
      } else {
        restriction := None;
      }
      return Pass;
    }

    /** Map type and center. */
    method ReadPlaceFields(o: Object, centerObject: Object) returns (outcome: Outcome<AndroidError>)
      modifies this
      ensures outcome.Pass? <==> ReadPlace(o, centerObject).Success?
      ensures outcome.Fail? ==> outcome.error == ReadPlace(o, centerObject).error
      ensures outcome.Pass? ==>
                var p := ReadPlace(o, centerObject).value;
                Fields() == old(Fields()).(mapTypeId := p.mapTypeId, center := p.center)
    {
      var typeRead := Optional(o, "mapTypeId", StringAt(o, "mapTypeId"));
      if typeRead.Failure? { return Fail(typeRead.error); }
      mapTypeId := typeRead.value;
      var lat := NumberAt(centerObject, "lat");
      if lat.None? { return Fail(JSONException("lat")); }
      var lng := NumberAt(centerObject, "lng");
      if lng.None? { return Fail(JSONException("lng")); }
      center := LatLng(lat.value, lng.value);
      return Pass;
    }

    /** Styles, map id, restriction and heading. */
    method ReadDetailFields(o: Object) returns (outcome: Outcome<AndroidError>)
      modifies this
      ensures outcome.Pass? <==> ReadDetails(o).Success?
      ensures outcome.Fail? ==> outcome.error == ReadDetails(o).error
      ensures outcome.Pass? ==>
                var d := ReadDetails(o).value;
                Fields() == old(Fields()).(styles := d.styles, mapId := d.mapId, restriction := d.restriction, heading := d.heading)
    {
      var stylesRead := Optional(o, "styles", StringAt(o, "styles"));
      if stylesRead.Failure? { return Fail(stylesRead.error); }
      styles := stylesRead.value;
      var mapIdRead := Optional(o, "androidMapId", StringAt(o, "androidMapId"));
      if mapIdRead.Failure? { return Fail(mapIdRead.error); }
      mapId := mapIdRead.value;
      outcome := ReadRestrictionField(o);
      if outcome.Fail? { return; }
      var headingRead := Optional(o, "heading", NumberAt(o, "heading"));
      if headingRead.Failure? { return Fail(headingRead.error); }
      heading := headingRead.value;
      return Pass;
    }
  }
}
