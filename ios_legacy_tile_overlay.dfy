/**
 * The `TileOverlay` options of the older iOS plugin target: tiles come from
 * a JavaScript callback named by `getTileCallbackId`, which is required;
 * the optional fields follow the same rules as the current target.
 */
module IosLegacyTileOverlay {
  import opened Wrappers
  import opened Json
  import opened SwiftJson
  import IosTileOverlay

  datatype TileOverlay = TileOverlay(getTileCallbackId: string, opacity: Option<real>, visible: Option<bool>, zIndex: int)

  const CallbackIdMissing: string := "TileOverlay object is missing the required 'getTileCallbackId' property"

  /** `TileOverlay(fromJSObject:)` */
  function ParseTileOverlay(o: Object): (r: Result<TileOverlay, IosTileOverlay.TileOverlayError>)
    ensures r == Failure(IosTileOverlay.InvalidArguments(CallbackIdMissing)) <==> StringAt(o, "getTileCallbackId").None?
    ensures r.Success? <==> StringAt(o, "getTileCallbackId").Some? && IosTileOverlay.ZIndex(o).Success?
    ensures StringAt(o, "getTileCallbackId").Some? && r.Failure? ==> r.error == IosTileOverlay.Int32Overflow
    ensures r.Success? ==>
              && o["getTileCallbackId"] == JStr(r.value.getTileCallbackId)
              && r.value.opacity == NumberAt(o, "opacity")
              && r.value.visible == AsBool(o, "isFlat")
              && IosTileOverlay.ZIndex(o) == Success(r.value.zIndex)
  {
    var getTileCallbackId :- Require(StringAt(o, "getTileCallbackId"), IosTileOverlay.InvalidArguments(CallbackIdMissing));
    var zIndex :- IosTileOverlay.ZIndex(o);
    Success(TileOverlay(getTileCallbackId, NumberAt(o, "opacity"), AsBool(o, "isFlat"), zIndex))
  }

  /** Both targets read the optional fields the same way and fail on the same z-index. */
  lemma AgreesWithCurrentTarget(o: Object, url: string)
    requires StringAt(o, "getTileCallbackId").Some?
    ensures var legacy := ParseTileOverlay(o);
            var current := IosTileOverlay.ParseTileOverlay(o["url" := JStr(url)]);
            && (legacy.Success? <==> current.Success?)
            && (legacy.Success? ==>
                  && legacy.value.opacity == current.value.opacity
                  && legacy.value.visible == current.value.visible
                  && legacy.value.zIndex == current.value.zIndex)
  {
    var o' := o["url" := JStr(url)];
    assert Get(o', "opacity") == Get(o, "opacity") && Get(o', "isFlat") == Get(o, "isFlat");
    assert Get(o', "zIndex") == Get(o, "zIndex") && Get(o', "url") == Some(JStr(url));
  }
}
