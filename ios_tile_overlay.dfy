/**
 * The iOS `TileOverlay` options, built from the object passed to
 * `addTileOverlay`: the `url` template is required; opacity and visibility
 * are optional; the z-index defaults to 0 and is narrowed to `Int32`.
 */
module IosTileOverlay {
  import opened Wrappers
  import opened Json
  import opened SwiftJson

  datatype TileOverlay = TileOverlay(url: string, opacity: Option<real>, visible: Option<bool>, zIndex: int)

  /** `GoogleMapErrors.invalidArguments`, or the runtime trap of an `Int32(...)` conversion out of range. */
  datatype TileOverlayError = InvalidArguments(message: string) | Int32Overflow

  const UrlMissing: string := "TileOverlay object is missing the required 'url' property"

  /** `Int32((o["zIndex"] as? Int) ?? 0)`: the z-index, 0 when absent or not a whole number. */
  function ZIndex(o: Object): (r: Result<int, TileOverlayError>)
    ensures r.Success? ==> InInt32(r.value)
    ensures r.Success? <==> InInt32(AsInt(o, "zIndex").GetOr(0))
    ensures r.Success? ==> r.value == AsInt(o, "zIndex").GetOr(0)
    ensures r.Failure? ==> r.error == Int32Overflow
  {
    var z := AsInt(o, "zIndex").GetOr(0);
    if InInt32(z) then Success(z) else Failure(Int32Overflow)
  }

  /** `TileOverlay(fromJSObject:)` */
  function ParseTileOverlay(o: Object): (r: Result<TileOverlay, TileOverlayError>)
    ensures r == Failure(InvalidArguments(UrlMissing)) <==> StringAt(o, "url").None?
    ensures r.Success? <==> StringAt(o, "url").Some? && ZIndex(o).Success?
    ensures StringAt(o, "url").Some? && r.Failure? ==> r.error == Int32Overflow
    ensures r.Success? ==>
              && o["url"] == JStr(r.value.url)
              && r.value.opacity == NumberAt(o, "opacity")
              && r.value.visible == AsBool(o, "isFlat")
              && ZIndex(o) == Success(r.value.zIndex)
  {
    var url :- Require(StringAt(o, "url"), InvalidArguments(UrlMissing));
    var zIndex :- ZIndex(o);
    Success(TileOverlay(url, NumberAt(o, "opacity"), AsBool(o, "isFlat"), zIndex))
  }

  /** An overlay whose optional keys are absent or of another type has no opacity or visibility and z-index 0. */
  lemma Defaults(o: Object)
    requires StringAt(o, "url").Some?
    requires NumberAt(o, "opacity").None? && AsBool(o, "isFlat").None? && AsInt(o, "zIndex").None?
    ensures ParseTileOverlay(o) == Success(TileOverlay(o["url"].s, None, None, 0))
  {
  }

  /** Visibility comes from `isFlat`: a `visible` key has no effect. */
  lemma VisibleKeyIgnored(o: Object, v: Json)
    ensures ParseTileOverlay(o["visible" := v]) == ParseTileOverlay(o)
  {
    var o' := o["visible" := v];
    assert Get(o', "url") == Get(o, "url") && Get(o', "opacity") == Get(o, "opacity");
    assert Get(o', "isFlat") == Get(o, "isFlat") && Get(o', "zIndex") == Get(o, "zIndex");
  }
}
