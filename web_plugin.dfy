/**
 * The web implementation of the plugin (`CapacitorGoogleMapsWeb`): a
 * dictionary of live maps, each holding per-kind registries of the objects
 * added to it, and six plugin-wide counters that allocate the ids of those
 * objects. Calls that read a property of a map entry that is not there
 * raise a `TypeError` in JavaScript; here they return `TypeError` and
 * change nothing.
 */
module WebPlugin {
  import opened Wrappers
  import opened Text
  import opened Json
  import opened WebSdk
  import opened WebState
  import MapTypes

  /** JavaScript truthiness of a property value (absent reads as `undefined`). */
  predicate Truthy(v: Option<Json>)
  {
    match v
    case None => false
    case Some(JNull) => false
    case Some(JBool(b)) => b
    case Some(JNum(n)) => n != 0.0
    case Some(JStr(s)) => s != ""
    case Some(_) => true
  }

  /** `create`: the SDK map options, with a generated Map ID when none is given. */
  function ConfigWithMapId(config: Object, counter: nat): (c: Object)
    ensures Truthy(Get(config, "mapId")) ==> c == config
    ensures !Truthy(Get(config, "mapId")) ==>
              c.Keys == config.Keys + {"mapId"} && c["mapId"] == JStr("capacitor_map_" + Decimal(counter))
    ensures forall k | k in config && k != "mapId" :: k in c && c[k] == config[k]
  {
    if Truthy(Get(config, "mapId")) then config
    else config["mapId" := JStr("capacitor_map_" + Decimal(counter))]
  }

  /** The position of the first occurrence of `x` in `s`, or `|s|`. */
  function IndexOfObject(s: seq<ImageMapType>, x: ImageMapType): (r: nat)
    ensures r <= |s|
    ensures r < |s| ==> s[r] == x
    ensures forall j | 0 <= j < r :: s[j] != x
    decreases |s|
  {
    if s == [] then 0 else if s[0] == x then 0 else 1 + IndexOfObject(s[1..], x)
  }

  /** Errors the web implementation raises. */
  datatype WebError =
    | TypeError          // a property read on `undefined`: the map id is not registered
    | Error(message: string)

  const NotSupportedOnWeb: string := "Method not supported on web."
  const MapTypeUndefined: string := "Map type is undefined"

  /** The methods the web implementation rejects outright. */
  datatype UnsupportedCall = EnableIndoorMaps | EnableAccessibilityElements | DispatchMapEvent
                           | OnScroll | OnResize | OnDisplay

  /** Every one of them fails with the same error, whatever its arguments. */
  function Unsupported(call: UnsupportedCall): (r: Outcome<WebError>)
    ensures r.Fail? && r.error == Error(NotSupportedOnWeb)
  {
    Fail(Error(NotSupportedOnWeb))
  }

  /** Events the plugin itself passes to `notifyListeners`. */
  datatype Notification = MapReady(mapId: string)

  class CapacitorGoogleMapsWeb {
    var maps: map<string, MapEntry>
    /** `currMarkerId`, `currTileOverlayId`, `currPolygonId`, `currCircleId`, `currPolylineId`, `currMapId`. */
    var counters: IdCounters
    var notified: seq<Notification>

    /**
     * Every registered id was issued by its kind's counter and is below it,
     * no id of a kind is registered in two maps, and each map's tile-overlay
     * registry matches its overlay stack.
     */
    ghost predicate Valid()
      reads this
    {
      StateValid(maps, counters)
    }

    constructor ()
      ensures Valid()
      ensures maps == map[] && notified == []
      ensures counters == IdCounters(0, 0, 0, 0, 0, 0)
    {
      maps := map[];
      counters := IdCounters(0, 0, 0, 0, 0, 0);
      notified := [];
      StateInitial(IdCounters(0, 0, 0, 0, 0, 0));
    }

    /**
     * `create`: installs an entry with empty registries (replacing any entry
     * under the same id), generating the Map ID from `currMapId` when the
     * config has none, and announces `onMapReady`. `sdkMapTypeId` is the
     * map type the new SDK map reports.
     */
    method Create(id: string, element: JsObject, config: Object, sdkMapTypeId: Option<string>)
      requires Valid()
      modifies this
      ensures Valid() && old(counters).AtMost(counters)
      ensures id in maps && maps == old(maps)[id := NewEntry(element, maps[id].sdkMap, sdkMapTypeId)]
      ensures fresh(maps[id].sdkMap) && maps[id].sdkMap.options == JObj(ConfigWithMapId(config, old(counters.mapId)))
      ensures counters == old(counters).(mapId := if Truthy(Get(config, "mapId")) then old(counters.mapId)
                                                 else old(counters.mapId) + 1)
      ensures notified == old(notified) + [MapReady(id)]
    {
      var options := ConfigWithMapId(config, counters.mapId);
      var nextMapId := if Truthy(Get(config, "mapId")) then counters.mapId else counters.mapId + 1;
      var created := new JsObject(JObj(options));
      var e := NewEntry(element, created, sdkMapTypeId);
      StateIgnoresMapId(maps, counters, nextMapId);
      counters := counters.(mapId := nextMapId);
      StateInstall(maps, counters, id, e);
      maps := maps[id := e];
      notified := notified + [MapReady(id)];
    }

    /** `destroy`: deletes only that map's entry; no counter changes. */
    method Destroy(id: string) returns (r: Outcome<WebError>)
      requires Valid()
      modifies this
      ensures Valid()
      ensures id !in old(maps) ==> r == Fail(TypeError) && unchanged(this)
      ensures id in old(maps) ==> r == Pass && maps == old(maps) - {id}
      ensures counters == old(counters) && notified == old(notified)
    {
      if id !in maps {
        return Fail(TypeError);
      }
      StateDelete(maps, counters, id);
      maps := maps - {id};
      r := Pass;
    }

    /**
     * A batch of `items` was added to map `id` under the ids in `ids`: the
     * kind's counter values in order, one per item, each bound to a new SDK
     * object built from its item; nothing else changed.
     */
    twostate predicate ShapesAdded(kind: ShapeKind, id: string, items: seq<Json>, ids: seq<string>)
      reads this
    {
      && ids == IdRange(old(counters.Shape(kind)), |items|)
      && counters == old(counters).AddShapes(kind, |items|)
      && notified == old(notified)
      && (|items| == 0 ==> maps == old(maps))
      && (|items| > 0 ==>
            && id in old(maps) && id in maps
            && maps == old(maps)[id := old(maps)[id].WithShapes(kind, maps[id].Shapes(kind))]
            && BatchBound(old(maps)[id].Shapes(kind), maps[id].Shapes(kind), ids, items)
            && (forall j | 0 <= j < |items| :: fresh(maps[id].Shapes(kind)[ids[j]])))
    }

    /**
     * The loop of the methods below: for each item a new SDK object, bound
     * in `reg0` under the next counter value from `c0` on.
     */
    static method NewShapes(reg0: map<string, JsObject>, c0: nat, items: seq<Json>)
      returns (reg: map<string, JsObject>, ids: seq<string>, ghost objs: seq<JsObject>)
      requires IdsBelow(reg0.Keys, c0)
      ensures |objs| == |items| && reg == Registered(reg0, c0, objs)
      ensures ids == IdRange(c0, |items|)
      ensures BatchBound(reg0, reg, ids, items)
      ensures forall j | 0 <= j < |items| :: fresh(reg[ids[j]])
      ensures forall key | key in reg :: key in reg0 || (key in Issued(c0 + |items|) && key !in Issued(c0))
    {
      reg := reg0;
      var c := c0;
      objs := [];
      ids := [];
      var i := 0;
      while i < |items|
        invariant 0 <= i <= |items| && |objs| == i
        invariant c == c0 + i
        invariant reg == Registered(reg0, c0, objs)
        invariant ids == IdRange(c0, i)
        invariant forall j | 0 <= j < i :: objs[j].options == items[j]
        invariant forall o | o in objs :: fresh(o)
      {
        var obj := new JsObject(items[i]);
        var key := Decimal(c);
        RegisteredSnoc(reg0, c0, objs, obj);
        IdRangeSnoc(c0, i);
        forall j | 0 <= j < i + 1 ensures (objs + [obj])[j].options == items[j] {
          if j < i {
            assert (objs + [obj])[j] == objs[j];
          }
        }
        reg := reg[key := obj];
        objs := objs + [obj];
        ids := ids + [key];
        c := c + 1;
        i := i + 1;
      }
      BatchRegistered(reg0, c0, objs, items);
      forall j | 0 <= j < |items| ensures fresh(reg[ids[j]]) {
        assert objs[j] in objs;
      }
    }

    /**
     * The loop shared by `addMarkers`, `addPolygons`, `addCircles` and
     * `addPolylines`: the first item dereferences the map entry, so an
     * unknown map id fails only when there is an item. The registry and
     * the counter are accumulated locally and stored after the loop.
     */
    method AddShapes(id: string, kind: ShapeKind, items: seq<Json>) returns (r: Result<seq<string>, WebError>)
      requires Valid()
      modifies this
      ensures Valid() && old(counters).AtMost(counters)
      ensures id !in old(maps) && |items| > 0 ==> r == Failure(TypeError) && unchanged(this)
      ensures id in old(maps) || |items| == 0 ==> r.Success? && ShapesAdded(kind, id, items, r.value)
    {
      if |items| == 0 {
        return Success([]);
      }
      if id !in maps {
        return Failure(TypeError);
      }
      var ids := AddBatch(id, kind, items);
      r := Success(ids);
    }

    /** `AddShapes` on a registered map and at least one item. */
    method AddBatch(id: string, kind: ShapeKind, items: seq<Json>) returns (ids: seq<string>)
      requires Valid() && id in maps && |items| > 0
      modifies this
      ensures Valid() && old(counters).AtMost(counters)
      ensures ShapesAdded(kind, id, items, ids)
    {
      var reg0 := maps[id].Shapes(kind);
      var c0 := counters.Shape(kind);
      assert IdsBelow(reg0.Keys, c0);
      var reg; ghost var objs;
      reg, ids, objs := NewShapes(reg0, c0, items);
      AddShapesGrows(counters, kind, |items|);
      StoreShapes(id, kind, reg, |items|);
    }

    /** Stores the registry built by `NewShapes` and advances the kind's counter past the batch. */
    method StoreShapes(id: string, kind: ShapeKind, reg: map<string, JsObject>, n: nat)
      requires Valid() && id in maps
      requires forall key | key in reg ::
                 key in maps[id].Shapes(kind) || (key in Issued(counters.Shape(kind) + n) && key !in Issued(counters.Shape(kind)))
      modifies this
      ensures Valid()
      ensures maps == old(maps)[id := old(maps)[id].WithShapes(kind, reg)]
      ensures counters == old(counters).AddShapes(kind, n) && notified == old(notified)
    {
      StateExtendShapes(maps, counters, id, kind, n, reg);
      maps := maps[id := maps[id].WithShapes(kind, reg)];
      counters := counters.AddShapes(kind, n);
    }

    /** The loop of `removeMarkers`: deletes each listed id that is registered, skipping the rest. */
    static method DeleteEach(reg: map<string, JsObject>, ids: seq<string>) returns (reg': map<string, JsObject>)
      ensures reg' == reg - (set k | k in ids)
    {
      reg' := reg;
      var i := 0;
      while i < |ids|
        invariant 0 <= i <= |ids|
        invariant reg' == reg - (set k | k in ids[..i])
      {
        assert ids[..i + 1] == ids[..i] + [ids[i]];
        if ids[i] in reg' {
          reg' := reg' - {ids[i]};
        }
        i := i + 1;
      }
      assert ids[..i] == ids;
    }

    /**
     * `removeMarkers`: the listed markers that are registered in the map are
     * deleted and the others skipped; an unknown map id fails once there is
     * an id to look up.
     */
    method RemoveMarkers(id: string, markerIds: seq<string>) returns (r: Outcome<WebError>)
      requires Valid()
      modifies this
      ensures Valid()
      ensures id !in old(maps) ==> unchanged(this) && r == if |markerIds| == 0 then Pass else Fail(TypeError)
      ensures id in old(maps) ==>
                r == Pass && maps == old(maps)[id := old(maps)[id].WithShapes(Marker, old(maps)[id].markers - (set k | k in markerIds))]
      ensures counters == old(counters) && notified == old(notified)
    {
      if id !in maps {
        return if |markerIds| == 0 then Pass else Fail(TypeError);
      }
      var reg := DeleteEach(maps[id].markers, markerIds);
      StateShrinkShapes(maps, counters, id, Marker, reg);
      maps := maps[id := maps[id].WithShapes(Marker, reg)];
      r := Pass;
    }

    /** `removeMarker`: deletes the marker if it is registered. */
    method RemoveMarker(id: string, markerId: string) returns (r: Outcome<WebError>)
      requires Valid()
      modifies this
      ensures Valid()
      ensures id !in old(maps) ==> r == Fail(TypeError) && unchanged(this)
      ensures id in old(maps) ==>
                r == Pass && maps == old(maps)[id := old(maps)[id].WithShapes(Marker, old(maps)[id].markers - {markerId})]
      ensures counters == old(counters) && notified == old(notified)
    {
      if id !in maps {
        return Fail(TypeError);
      }
      var reg := maps[id].markers - {markerId};
      StateShrinkShapes(maps, counters, id, Marker, reg);
      maps := maps[id := maps[id].WithShapes(Marker, reg)];
      r := Pass;
    }

    /** The loop of `removePolygons`, `removeCircles` and `removePolylines`: stops at the first unregistered id. */
    static method DeleteStrict(reg: map<string, JsObject>, ids: seq<string>) returns (reg': map<string, JsObject>, completed: bool)
      ensures Removal(reg', completed) == StrictRemove(reg, ids)
    {
      reg' := reg;
      var i := 0;
      while i < |ids|
        invariant 0 <= i <= |ids|
        invariant StrictRemove(reg', ids[i..]) == StrictRemove(reg, ids)
      {
        if ids[i] !in reg' {
          return reg', false;
        }
        assert ids[i..][1..] == ids[i + 1..];
        reg' := reg' - {ids[i]};
        i := i + 1;
      }
      completed := true;
    }

    /**
     * The removal shared by `removePolygons`, `removeCircles` and
     * `removePolylines`: there is no existence check, so an unregistered id
     * fails with a `TypeError`, after the ids before it were deleted.
     */
    method RemoveShapes(id: string, kind: ShapeKind, ids: seq<string>) returns (r: Outcome<WebError>)
      requires Valid()
      modifies this
      ensures Valid()
      ensures id !in old(maps) ==> unchanged(this) && r == if |ids| == 0 then Pass else Fail(TypeError)
      ensures id in old(maps) ==>
                var removal := StrictRemove(old(maps)[id].Shapes(kind), ids);
                && maps == old(maps)[id := old(maps)[id].WithShapes(kind, removal.remaining)]
                && r == if removal.completed then Pass else Fail(TypeError)
      ensures counters == old(counters) && notified == old(notified)
    {
      if id !in maps {
        return if |ids| == 0 then Pass else Fail(TypeError);
      }
      var reg, completed := DeleteStrict(maps[id].Shapes(kind), ids);
      StateShrinkShapes(maps, counters, id, kind, reg);
      maps := maps[id := maps[id].WithShapes(kind, reg)];
      r := if completed then Pass else Fail(TypeError);
    }

    method RemovePolygons(id: string, polygonIds: seq<string>) returns (r: Outcome<WebError>)
      requires Valid()
      modifies this
      ensures Valid()
      ensures id !in old(maps) ==> unchanged(this) && r == if |polygonIds| == 0 then Pass else Fail(TypeError)
      ensures id in old(maps) ==>
                var removal := StrictRemove(old(maps)[id].polygons, polygonIds);
                && maps == old(maps)[id := old(maps)[id].WithShapes(Polygon, removal.remaining)]
                && r == if removal.completed then Pass else Fail(TypeError)
      ensures counters == old(counters) && notified == old(notified)
    {
      r := RemoveShapes(id, Polygon, polygonIds);
    }

    method RemoveCircles(id: string, circleIds: seq<string>) returns (r: Outcome<WebError>)
      requires Valid()
      modifies this
      ensures Valid()
      ensures id !in old(maps) ==> unchanged(this) && r == if |circleIds| == 0 then Pass else Fail(TypeError)
      ensures id in old(maps) ==>
                var removal := StrictRemove(old(maps)[id].circles, circleIds);
                && maps == old(maps)[id := old(maps)[id].WithShapes(Circle, removal.remaining)]
                && r == if removal.completed then Pass else Fail(TypeError)
      ensures counters == old(counters) && notified == old(notified)
    {
      r := RemoveShapes(id, Circle, circleIds);
    }

    method RemovePolylines(id: string, polylineIds: seq<string>) returns (r: Outcome<WebError>)
      requires Valid()
      modifies this
      ensures Valid()
      ensures id !in old(maps) ==> unchanged(this) && r == if |polylineIds| == 0 then Pass else Fail(TypeError)
      ensures id in old(maps) ==>
                var removal := StrictRemove(old(maps)[id].polylines, polylineIds);
                && maps == old(maps)[id := old(maps)[id].WithShapes(Polyline, removal.remaining)]
                && r == if removal.completed then Pass else Fail(TypeError)
      ensures counters == old(counters) && notified == old(notified)
    {
      r := RemoveShapes(id, Polyline, polylineIds);
    }

    /**
     * A tile overlay for the template `url` was registered in map `id`
     * under `key`, the tile-overlay counter's value, and pushed on the map's
     * overlay stack; `key` was not registered before and nothing else changed.
     */
    twostate predicate TileOverlayAdded(id: string, url: string, opacity: Option<real>, key: string)
      reads this
    {
      && key == Decimal(old(counters.tileOverlay))
      && id in old(maps) && key !in old(maps)[id].tileOverlays
      && id in maps && key in maps[id].tileOverlays
      && maps == old(maps)[id := old(maps)[id].PushOverlay(key, maps[id].tileOverlays[key])]
      && fresh(maps[id].tileOverlays[key])
      && maps[id].tileOverlays[key].url == url && maps[id].tileOverlays[key].opacity == opacity
      && counters == old(counters).(tileOverlay := old(counters.tileOverlay) + 1)
      && notified == old(notified)
    }

    /** `addTileOverlay`: reads the map entry first. */
    method AddTileOverlay(id: string, url: string, opacity: Option<real>) returns (r: Result<string, WebError>)
      requires Valid()
      modifies this
      ensures Valid() && old(counters).AtMost(counters)
      ensures id !in old(maps) ==> r == Failure(TypeError) && unchanged(this)
      ensures id in old(maps) ==> r.Success? && TileOverlayAdded(id, url, opacity, r.value)
    {
      if id !in maps {
        return Failure(TypeError);
      }
      var key := PushTileOverlay(id, url, opacity);
      r := Success(key);
    }

    method PushTileOverlay(id: string, url: string, opacity: Option<real>) returns (key: string)
      requires Valid() && id in maps
      modifies this
      ensures Valid() && old(counters).AtMost(counters)
      ensures TileOverlayAdded(id, url, opacity, key)
    {
      key := Decimal(counters.tileOverlay);
      var overlay := new ImageMapType(url, opacity);
      StateIssueTile(maps, counters, id, overlay);
      maps := maps[id := maps[id].PushOverlay(key, overlay)];
      counters := counters.(tileOverlay := counters.tileOverlay + 1);
    }

    /** The index loop of `removeTileOverlay`, which stops at the first match. */
    static method FindOverlay(stack: seq<ImageMapType>, overlay: ImageMapType) returns (i: nat)
      ensures i == IndexOfObject(stack, overlay)
    {
      i := 0;
      while i < |stack| && stack[i] != overlay
        invariant i <= |stack|
        invariant forall j | 0 <= j < i :: stack[j] != overlay
      {
        i := i + 1;
      }
    }

    /**
     * `removeTileOverlay`: removes the first stack position holding the
     * overlay registered under `tileOverlayId`, and that registry entry; an
     * id that is not registered reads as `undefined`, which no position
     * holds, and then nothing changes.
     */
    method RemoveTileOverlay(id: string, tileOverlayId: string) returns (r: Outcome<WebError>)
      requires Valid()
      modifies this
      ensures Valid()
      ensures id !in old(maps) ==> r == Fail(TypeError) && unchanged(this)
      ensures id in old(maps) ==> r == Pass && counters == old(counters) && notified == old(notified)
      ensures id in old(maps) ==>
                var e := old(maps)[id];
                if tileOverlayId in e.tileOverlays
                   && IndexOfObject(e.overlayMapTypes, e.tileOverlays[tileOverlayId]) < |e.overlayMapTypes|
                then maps == old(maps)[id := e.RemoveOverlay(tileOverlayId, IndexOfObject(e.overlayMapTypes, e.tileOverlays[tileOverlayId]))]
                else maps == old(maps)
      ensures id in old(maps) ==> id in maps && tileOverlayId !in maps[id].tileOverlays
    {
      if id !in maps {
        return Fail(TypeError);
      }
      r := Pass;
      var e := maps[id];
      if tileOverlayId !in e.tileOverlays {
        return;
      }
      var i := FindOverlay(e.overlayMapTypes, e.tileOverlays[tileOverlayId]);
      if i < |e.overlayMapTypes| {
        StateRemoveTile(maps, counters, id, tileOverlayId, i);
        maps := maps[id := e.RemoveOverlay(tileOverlayId, i)];
      }
    }

    /**
     * `getIdFromMap`: the id of a map entry holding the SDK map `sdkMap`,
     * or `""` when there is none. The entries are visited in an order the
     * model leaves open.
     */
    method GetIdFromMap(sdkMap: JsObject) returns (r: string)
      ensures (exists k | k in maps :: maps[k].sdkMap == sdkMap) ==> r in maps && maps[r].sdkMap == sdkMap
      ensures (forall k | k in maps :: maps[k].sdkMap != sdkMap) ==> r == ""
    {
      var keys := maps.Keys;
      while keys != {}
        invariant keys <= maps.Keys
        invariant forall k | k in maps && k !in keys :: maps[k].sdkMap != sdkMap
        decreases |keys|
      {
        var k :| k in keys;
        if maps[k].sdkMap == sdkMap {
          return k;
        }
        keys := keys - {k};
      }
      return "";
    }

    /**
     * `getIdFromMarker`: the id under which `marker` is registered in map
     * `mapId`, or `""` when it is not.
     */
    method GetIdFromMarker(mapId: string, marker: JsObject) returns (r: Result<string, WebError>)
      ensures mapId !in maps ==> r == Failure(TypeError)
      ensures mapId in maps && marker in maps[mapId].markers.Values ==>
                r.Success? && r.value in maps[mapId].markers && maps[mapId].markers[r.value] == marker
      ensures mapId in maps && marker !in maps[mapId].markers.Values ==> r == Success("")
    {
      if mapId !in maps {
        return Failure(TypeError);
      }
      var markers := maps[mapId].markers;
      var keys := markers.Keys;
      while keys != {}
        invariant keys <= markers.Keys
        invariant forall k | k in markers && k !in keys :: markers[k] != marker
        decreases |keys|
      {
        var k :| k in keys;
        if markers[k] == marker {
          return Success(k);
        }
        keys := keys - {k};
      }
      return Success("");
    }

    /**
     * `getMapType`: the name of the map's current SDK map type, or an error
     * when the SDK reports none.
     */
    method GetMapType(id: string) returns (r: Result<string, WebError>)
      ensures id !in maps ==> r == Failure(TypeError)
      ensures id in maps && maps[id].mapTypeId.None? ==> r == Failure(Error(MapTypeUndefined))
      ensures id in maps && maps[id].mapTypeId.Some? ==> r == Success(MapTypes.FromSdkMapTypeId(maps[id].mapTypeId.value))
    {
      if id !in maps {
        return Failure(TypeError);
      }
      match maps[id].mapTypeId
      case None => r := Failure(Error(MapTypeUndefined));
      case Some(t) => r := Success(MapTypes.FromSdkMapTypeId(t));
    }

    /** `setMapType`: sets the SDK map type id converted from the requested name. */
    method SetMapType(id: string, mapType: string) returns (r: Outcome<WebError>)
      requires Valid()
      modifies this
      ensures Valid()
      ensures id !in old(maps) ==> r == Fail(TypeError) && unchanged(this)
      ensures id in old(maps) ==>
                r == Pass && maps == old(maps)[id := old(maps)[id].(mapTypeId := Some(MapTypes.ToSdkMapTypeId(mapType)))]
      ensures counters == old(counters) && notified == old(notified)
    {
      var sdkId := MapTypes.ToSdkMapTypeId(mapType);
      if id !in maps {
        return Fail(TypeError);
      }
      var e := maps[id].(mapTypeId := Some(sdkId));
      StateSameRegistries(maps, counters, id, e);
      maps := maps[id := e];
      r := Pass;
    }

    /**
     * `enableTrafficLayer`: enabling shows the map's traffic layer, reusing
     * the one it has or making a new one; disabling drops it if there is one.
     */
    method EnableTrafficLayer(id: string, enabled: bool) returns (r: Outcome<WebError>)
      requires Valid()
      modifies this
      ensures Valid()
      ensures id !in old(maps) ==> r == Fail(TypeError) && unchanged(this)
      ensures id in old(maps) ==>
                && r == Pass && id in maps
                && maps == old(maps)[id := old(maps)[id].(trafficLayer := maps[id].trafficLayer)]
      ensures id in old(maps) && enabled ==>
                && maps[id].trafficLayer.Some?
                && (old(maps)[id].trafficLayer.Some? ==> maps[id].trafficLayer == old(maps)[id].trafficLayer)
                && (old(maps)[id].trafficLayer.None? ==> fresh(maps[id].trafficLayer.value))
      ensures id in old(maps) && !enabled ==> maps[id].trafficLayer.None?
      ensures counters == old(counters) && notified == old(notified)
    {
      if id !in maps {
        return Fail(TypeError);
      }
      var layer: JsObject;
      if maps[id].trafficLayer.Some? {
        layer := maps[id].trafficLayer.value;
      } else {
        layer := new JsObject(JObj(map[]));
      }
      var e := maps[id];
      if enabled {
        e := e.(trafficLayer := Some(layer));
      } else if e.trafficLayer.Some? {
        e := e.(trafficLayer := None);
      }
      StateSameRegistries(maps, counters, id, e);
      maps := maps[id := e];
      r := Pass;
    }

    /** The `for...in` loop of `enableClustering`: every registered marker, once. */
    static method RegisteredMarkers(reg: map<string, JsObject>) returns (markers: seq<JsObject>)
      ensures |markers| == |reg|
      ensures forall o :: o in markers <==> o in reg.Values
    {
      markers := [];
      var keys := reg.Keys;
      ghost var visited: set<string> := {};
      while keys != {}
        invariant keys !! visited && keys + visited == reg.Keys
        invariant |markers| == |visited|
        invariant forall o :: o in markers <==> exists k | k in visited :: reg[k] == o
        decreases |keys|
      {
        var k :| k in keys;
        markers := markers + [reg[k]];
        keys := keys - {k};
        visited := visited + {k};
      }
    }

    /**
     * `enableClustering`: a new clusterer over the map's markers, with
     * `minPoints` the given minimum cluster size or 4, replacing any
     * clusterer the map had.
     */
    method EnableClustering(id: string, minClusterSize: Option<int>) returns (r: Outcome<WebError>)
      requires Valid()
      modifies this
      ensures Valid()
      ensures id !in old(maps) ==> r == Fail(TypeError) && unchanged(this)
      ensures id in old(maps) ==>
                && r == Pass && id in maps && maps[id].markerClusterer.Some?
                && maps == old(maps)[id := old(maps)[id].(markerClusterer := maps[id].markerClusterer)]
                && fresh(maps[id].markerClusterer.value.handle)
                && maps[id].markerClusterer.value.minPoints == minClusterSize.GetOr(4)
                && |maps[id].markerClusterer.value.markers| == |old(maps)[id].markers|
                && (forall o :: o in maps[id].markerClusterer.value.markers <==> o in old(maps)[id].markers.Values)
      ensures counters == old(counters) && notified == old(notified)
    {
      if id !in maps {
        return Fail(TypeError);
      }
      var markers := RegisteredMarkers(maps[id].markers);
      var handle := new JsObject(JObj(map[]));
      var e := maps[id].(markerClusterer := Some(Clusterer(handle, minClusterSize.GetOr(4), markers)));
      StateSameRegistries(maps, counters, id, e);
      maps := maps[id := e];
      r := Pass;
    }

    /** `disableClustering`: drops the map's clusterer if it has one. */
    method DisableClustering(id: string) returns (r: Outcome<WebError>)
      requires Valid()
      modifies this
      ensures Valid()
      ensures id !in old(maps) ==> r == Fail(TypeError) && unchanged(this)
      ensures id in old(maps) ==> r == Pass && maps == old(maps)[id := old(maps)[id].(markerClusterer := None)]
      ensures counters == old(counters) && notified == old(notified)
    {
      if id !in maps {
        return Fail(TypeError);
      }
      if maps[id].markerClusterer.Some? {
        var e := maps[id].(markerClusterer := None);
        StateSameRegistries(maps, counters, id, e);
        maps := maps[id := e];
      }
      r := Pass;
    }

    method AddMarkers(id: string, markers: seq<Json>) returns (r: Result<seq<string>, WebError>)
      requires Valid()
      modifies this
      ensures Valid() && old(counters).AtMost(counters)
      ensures id !in old(maps) && |markers| > 0 ==> r == Failure(TypeError) && unchanged(this)
      ensures id in old(maps) || |markers| == 0 ==> r.Success? && ShapesAdded(Marker, id, markers, r.value)
    {
      r := AddShapes(id, Marker, markers);
    }

    /** `addMarker`: reads the map entry before anything else. */
    method AddMarker(id: string, marker: Json) returns (r: Result<string, WebError>)
      requires Valid()
      modifies this
      ensures Valid() && old(counters).AtMost(counters)
      ensures id !in old(maps) ==> r == Failure(TypeError) && unchanged(this)
      ensures id in old(maps) ==> r.Success? && ShapesAdded(Marker, id, [marker], [r.value])
    {
      if id !in maps {
        return Failure(TypeError);
      }
      var ids := AddShapes(id, Marker, [marker]);
      r := Success(ids.value[0]);
    }

    method AddPolygons(id: string, polygons: seq<Json>) returns (r: Result<seq<string>, WebError>)
      requires Valid()
      modifies this
      ensures Valid() && old(counters).AtMost(counters)
      ensures id !in old(maps) && |polygons| > 0 ==> r == Failure(TypeError) && unchanged(this)
      ensures id in old(maps) || |polygons| == 0 ==> r.Success? && ShapesAdded(Polygon, id, polygons, r.value)
    {
      r := AddShapes(id, Polygon, polygons);
    }

    method AddCircles(id: string, circles: seq<Json>) returns (r: Result<seq<string>, WebError>)
      requires Valid()
      modifies this
      ensures Valid() && old(counters).AtMost(counters)
      ensures id !in old(maps) && |circles| > 0 ==> r == Failure(TypeError) && unchanged(this)
      ensures id in old(maps) || |circles| == 0 ==> r.Success? && ShapesAdded(Circle, id, circles, r.value)
    {
      r := AddShapes(id, Circle, circles);
    }

    method AddPolylines(id: string, polylines: seq<Json>) returns (r: Result<seq<string>, WebError>)
      requires Valid()
      modifies this
      ensures Valid() && old(counters).AtMost(counters)
      ensures id !in old(maps) && |polylines| > 0 ==> r == Failure(TypeError) && unchanged(this)
      ensures id in old(maps) || |polylines| == 0 ==> r.Success? && ShapesAdded(Polyline, id, polylines, r.value)
    {
      r := AddShapes(id, Polyline, polylines);
    }
  }
}
