/**
 * The Android `CapacitorGoogleMapTileOverlay`, built from the object passed
 * to `addTileOverlay`: `getTileCallbackId` is required; the optional
 * fields start `null` and are assigned only when their key is present,
 * through the lenient `opt*` accessors; the SDK overlay is attached later.
 */
module AndroidTileOverlay {
  import opened Wrappers
  import opened Json
  import opened OrgJson
  import opened AndroidMapConfig

  /** What the overlay holds once its initialiser has run. */
  datatype OverlayFields = OverlayFields(
    getTileCallbackId: string, opacity: Option<JavaDouble>, zIndex: Option<real>, visible: Option<bool>)

  const CallbackIdMissing: string := "TileOverlay object is missing the required 'getTileCallbackId' property"

  /** The initialiser: the `has` check on the callback id, its `getString`, then each optional key. */
  function ParseTileOverlay(o: Object): (r: Result<OverlayFields, AndroidError>)
    ensures r == Failure(InvalidArgumentsError(CallbackIdMissing)) <==> !Has(o, "getTileCallbackId")
    ensures r.Success? <==> StringAt(o, "getTileCallbackId").Some?
    ensures r.Success? ==>
              && o["getTileCallbackId"] == JStr(r.value.getTileCallbackId)
              && (r.value.opacity.Some? <==> Has(o, "opacity"))
              && (r.value.visible.Some? <==> Has(o, "visible"))
              && (r.value.zIndex.Some? <==> Has(o, "zIndex"))
              && (r.value.zIndex.Some? ==> IsIntegral(r.value.zIndex.value))
  {
    if !Has(o, "getTileCallbackId") then Failure(InvalidArgumentsError(CallbackIdMissing))
    else
    var getTileCallbackId :- Require(StringAt(o, "getTileCallbackId"), JSONException("getTileCallbackId"));
    Success(OverlayFields(
      getTileCallbackId,
      if Has(o, "opacity") then Some(OptDouble(o, "opacity")) else None,
      if Has(o, "zIndex") then Some(OptLong(o, "zIndex") as real) else None,
      if Has(o, "visible") then Some(OptBoolean(o, "visible")) else None))
  }

  /**
   * A present but malformed optional value falls back instead of failing:
   * an opacity that is not a number reads as not-a-number, a z-index that
   * is not a number as 0, and a visibility that is neither `true` nor a
   * string as `false`.
   */
  lemma MalformedOptionalsFallBack(o: Object)
    requires StringAt(o, "getTileCallbackId").Some?
    ensures ParseTileOverlay(o).Success?
    ensures "opacity" in o && !o["opacity"].JNum? ==> ParseTileOverlay(o).value.opacity == Some(NaN)
    ensures "zIndex" in o && !o["zIndex"].JNum? ==> ParseTileOverlay(o).value.zIndex == Some(0.0)
    ensures "visible" in o && o["visible"] != JBool(true) && !o["visible"].JStr? ==>
              ParseTileOverlay(o).value.visible == Some(false)
  {
  }

  class CapacitorGoogleMapTileOverlay {
    var getTileCallbackId: string
    var opacity: Option<JavaDouble>
    var zIndex: Option<real>
    var visible: Option<bool>
    /** The SDK overlay, attached once the overlay is added to a map. */
    var googleMapTileOverlay: Option<object>

    function Fields(): OverlayFields
      reads this
    {
      OverlayFields(getTileCallbackId, opacity, zIndex, visible)
    }

    /** The declared initial values: every optional field `null`. */
    constructor (getTileCallbackId: string)
      ensures Fields() == OverlayFields(getTileCallbackId, None, None, None)
      ensures googleMapTileOverlay.None?
    {
      this.getTileCallbackId := getTileCallbackId;
      opacity, zIndex, visible := None, None, None;
      googleMapTileOverlay := None;
    }

    /** The conditional assignments of the initialiser. */
    method ReadOptionalFields(o: Object)
      modifies this
      ensures getTileCallbackId == old(getTileCallbackId) && googleMapTileOverlay == old(googleMapTileOverlay)
      ensures opacity == if Has(o, "opacity") then Some(OptDouble(o, "opacity")) else old(opacity)
      ensures visible == if Has(o, "visible") then Some(OptBoolean(o, "visible")) else old(visible)
      ensures zIndex == if Has(o, "zIndex") then Some(OptLong(o, "zIndex") as real) else old(zIndex)
    {
      if Has(o, "opacity") {
        opacity := Some(OptDouble(o, "opacity"));
      }
      if Has(o, "visible") {
        visible := Some(OptBoolean(o, "visible"));
      }
      if Has(o, "zIndex") {
        zIndex := Some(OptLong(o, "zIndex") as real);
      }
    }
  }

  /** `CapacitorGoogleMapTileOverlay(fromJSONObject)`: a new overlay holding what `ParseTileOverlay` computes, or its error. */
  method NewTileOverlay(o: Object) returns (r: Result<CapacitorGoogleMapTileOverlay, AndroidError>)
    ensures r.Success? <==> ParseTileOverlay(o).Success?
    ensures r.Failure? ==> r.error == ParseTileOverlay(o).error
    ensures r.Success? ==> fresh(r.value) && r.value.Fields() == ParseTileOverlay(o).value && r.value.googleMapTileOverlay.None?
  {
    if !Has(o, "getTileCallbackId") {
      return Failure(InvalidArgumentsError(CallbackIdMissing));
    }
    var id := StringAt(o, "getTileCallbackId");
    if id.None? {
      return Failure(JSONException("getTileCallbackId"));
    }
    var overlay := new CapacitorGoogleMapTileOverlay(id.value);
    overlay.ReadOptionalFields(o);
    return Success(overlay);
  }
}
