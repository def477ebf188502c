/**
 * The state of the web plugin as values: one entry per live map with its
 * per-kind registries, the plugin-wide id counters, and the invariant that
 * every registered id was issued by its kind's counter, once.
 */
module WebState {
  import opened Wrappers
  import opened Text
  import opened Json
  import opened WebSdk

  /** The kinds of map object whose registries the add/remove methods share. */
  datatype ShapeKind = Marker | Polygon | Circle | Polyline

  /** A `MarkerClusterer`, with its `minPoints` and the markers it was given. */
  datatype Clusterer = Clusterer(handle: JsObject, minPoints: int, markers: seq<JsObject>)

  /**
   * One entry of `maps`. `overlayMapTypes` and `mapTypeId` are the state of
   * the SDK map that the plugin reads back (`map.overlayMapTypes`,
   * `map.getMapTypeId()`).
   */
  datatype MapEntry = MapEntry(
    element: JsObject,
    sdkMap: JsObject,
    markers: map<string, JsObject>,
    tileOverlays: map<string, ImageMapType>,
    polygons: map<string, JsObject>,
    circles: map<string, JsObject>,
    polylines: map<string, JsObject>,
    markerClusterer: Option<Clusterer>,
    trafficLayer: Option<JsObject>,
    overlayMapTypes: seq<ImageMapType>,
    mapTypeId: Option<string>)
  {
    function Shapes(k: ShapeKind): map<string, JsObject>
    {
      match k
      case Marker => markers
      case Polygon => polygons
      case Circle => circles
      case Polyline => polylines
    }

    function WithShapes(k: ShapeKind, r: map<string, JsObject>): (e: MapEntry)
      ensures e.Shapes(k) == r
      ensures forall k2 | k2 != k :: e.Shapes(k2) == Shapes(k2)
      ensures e.tileOverlays == tileOverlays && e.overlayMapTypes == overlayMapTypes
      ensures e.element == element && e.sdkMap == sdkMap && e.mapTypeId == mapTypeId
      ensures e.markerClusterer == markerClusterer && e.trafficLayer == trafficLayer
    {
      match k
      case Marker => this.(markers := r)
      case Polygon => this.(polygons := r)
      case Circle => this.(circles := r)
      case Polyline => this.(polylines := r)
    }

    /** `addTileOverlay`: `ov` registered under `key` and pushed on the overlay stack. */
    function PushOverlay(key: string, ov: ImageMapType): (e: MapEntry)
      ensures e.tileOverlays == tileOverlays[key := ov] && e.overlayMapTypes == overlayMapTypes + [ov]
      ensures forall k :: e.Shapes(k) == Shapes(k)
    {
      this.(tileOverlays := tileOverlays[key := ov], overlayMapTypes := overlayMapTypes + [ov])
    }

    /** `removeTileOverlay`: the stack position `i` and the registry entry `key` deleted. */
    function RemoveOverlay(key: string, i: nat): (e: MapEntry)
      requires i < |overlayMapTypes|
      ensures e.tileOverlays == tileOverlays - {key}
      ensures e.overlayMapTypes == overlayMapTypes[..i] + overlayMapTypes[i + 1..]
      ensures forall k :: e.Shapes(k) == Shapes(k)
    {
      this.(tileOverlays := tileOverlays - {key}, overlayMapTypes := overlayMapTypes[..i] + overlayMapTypes[i + 1..])
    }
  }

  /** The entry `create` installs: every registry and the overlay stack empty, no clusterer, no traffic layer. */
  function NewEntry(element: JsObject, sdkMap: JsObject, mapTypeId: Option<string>): (e: MapEntry)
    ensures forall k :: e.Shapes(k) == map[]
    ensures e.tileOverlays == map[] && e.overlayMapTypes == []
  {
    MapEntry(element, sdkMap, map[], map[], map[], map[], map[], None, None, [], mapTypeId)
  }

  /** The tile-overlay registry and the map's overlay stack agree. */
  ghost predicate OverlaysConsistent(e: MapEntry)
  {
    && (forall k | k in e.tileOverlays :: e.tileOverlays[k] in e.overlayMapTypes)
    && (forall k1, k2 | k1 in e.tileOverlays && k2 in e.tileOverlays && k1 != k2 ::
          e.tileOverlays[k1] != e.tileOverlays[k2])
    && (forall i, j | 0 <= i < j < |e.overlayMapTypes| :: e.overlayMapTypes[i] != e.overlayMapTypes[j])
  }

  /** The ids a counter now at `c` has issued: the decimal strings of `0 .. c - 1`. */
  function Issued(c: nat): set<string>
  {
    if c == 0 then {} else Issued(c - 1) + {Decimal(c - 1)}
  }

  /** A counter value at or above `c` has not been issued yet. */
  lemma {:induction false} NotYetIssued(c: nat, n: nat)
    requires n >= c
    ensures Decimal(n) !in Issued(c)
  {
    if c > 0 {
      NotYetIssued(c - 1, n);
      if Decimal(c - 1) == Decimal(n) {
        DecimalInjective(c - 1, n);
      }
    }
  }

  /** Counters only issue more ids as they grow. */
  lemma {:induction false} IssuedGrows(c: nat, c': nat)
    requires c <= c'
    ensures Issued(c) <= Issued(c')
    decreases c' - c
  {
    if c < c' {
      IssuedGrows(c, c' - 1);
    }
  }

  /** Every key was issued by a counter now at `c`. */
  ghost predicate IdsBelow(keys: set<string>, c: nat)
  {
    keys <= Issued(c)
  }

  /**
   * The id a counter issues next is not among the ids it issued before, and
   * after it is issued the registry still holds only issued ids.
   */
  lemma NextIdIsFresh(keys: set<string>, c: nat)
    requires IdsBelow(keys, c)
    ensures Decimal(c) !in keys
    ensures IdsBelow(keys + {Decimal(c)}, c + 1)
  {
    NotYetIssued(c, c);
  }

  /** No id a counter issues from `c` on is already registered. */
  lemma LaterIdsAreFresh(keys: set<string>, c: nat, n: nat)
    requires IdsBelow(keys, c) && n >= c
    ensures Decimal(n) !in keys
  {
    NotYetIssued(c, n);
  }

  /**
   * Every id of kind `k` registered in a map was issued by that kind's
   * counter, now at `c`, and no id of the kind is registered in two maps.
   */
  ghost predicate ShapeIdsValid(maps: map<string, MapEntry>, k: ShapeKind, c: nat)
  {
    && (forall m | m in maps :: IdsBelow(maps[m].Shapes(k).Keys, c))
    && (forall m1, m2 | m1 in maps && m2 in maps && m1 != m2 :: maps[m1].Shapes(k).Keys !! maps[m2].Shapes(k).Keys)
  }

  /** The same for tile overlays. */
  ghost predicate TileIdsValid(maps: map<string, MapEntry>, c: nat)
  {
    && (forall m | m in maps :: IdsBelow(maps[m].tileOverlays.Keys, c))
    && (forall m1, m2 | m1 in maps && m2 in maps && m1 != m2 ::
          maps[m1].tileOverlays.Keys !! maps[m2].tileOverlays.Keys)
  }

  ghost predicate OverlaysValid(maps: map<string, MapEntry>)
  {
    forall m | m in maps :: OverlaysConsistent(maps[m])
  }

  /** Dropping maps or ids, or raising the counter, keeps the ids valid. */
  lemma ShapeIdsSubsume(maps: map<string, MapEntry>, maps': map<string, MapEntry>, k: ShapeKind, c: nat, c': nat)
    requires ShapeIdsValid(maps, k, c) && c <= c'
    requires maps'.Keys <= maps.Keys
    requires forall m | m in maps' :: maps'[m].Shapes(k).Keys <= maps[m].Shapes(k).Keys
    ensures ShapeIdsValid(maps', k, c')
  {
    IssuedGrows(c, c');
    forall m | m in maps' ensures IdsBelow(maps'[m].Shapes(k).Keys, c') {
      assert IdsBelow(maps[m].Shapes(k).Keys, c);
    }
    forall m1, m2 | m1 in maps' && m2 in maps' && m1 != m2
      ensures maps'[m1].Shapes(k).Keys !! maps'[m2].Shapes(k).Keys
    {
      assert maps[m1].Shapes(k).Keys !! maps[m2].Shapes(k).Keys;
    }
  }

  lemma TileIdsSubsume(maps: map<string, MapEntry>, maps': map<string, MapEntry>, c: nat, c': nat)
    requires TileIdsValid(maps, c) && c <= c'
    requires maps'.Keys <= maps.Keys
    requires forall m | m in maps' :: maps'[m].tileOverlays.Keys <= maps[m].tileOverlays.Keys
    ensures TileIdsValid(maps', c')
  {
    IssuedGrows(c, c');
    forall m | m in maps' ensures IdsBelow(maps'[m].tileOverlays.Keys, c') {
      assert IdsBelow(maps[m].tileOverlays.Keys, c);
    }
    forall m1, m2 | m1 in maps' && m2 in maps' && m1 != m2
      ensures maps'[m1].tileOverlays.Keys !! maps'[m2].tileOverlays.Keys
    {
      assert maps[m1].tileOverlays.Keys !! maps[m2].tileOverlays.Keys;
    }
  }

  /** Installing an entry with an empty registry keeps the ids valid. */
  lemma ShapeIdsInstall(maps: map<string, MapEntry>, k: ShapeKind, c: nat, id: string, e: MapEntry)
    requires ShapeIdsValid(maps, k, c) && e.Shapes(k) == map[]
    ensures ShapeIdsValid(maps[id := e], k, c)
  {
    var maps' := maps[id := e];
    forall m1, m2 | m1 in maps' && m2 in maps' && m1 != m2
      ensures maps'[m1].Shapes(k).Keys !! maps'[m2].Shapes(k).Keys
    {
      if m1 != id && m2 != id {
        assert maps[m1].Shapes(k).Keys !! maps[m2].Shapes(k).Keys;
      }
    }
  }

  lemma TileIdsInstall(maps: map<string, MapEntry>, c: nat, id: string, e: MapEntry)
    requires TileIdsValid(maps, c) && e.tileOverlays == map[]
    ensures TileIdsValid(maps[id := e], c)
  {
    var maps' := maps[id := e];
    forall m1, m2 | m1 in maps' && m2 in maps' && m1 != m2
      ensures maps'[m1].tileOverlays.Keys !! maps'[m2].tileOverlays.Keys
    {
      if m1 != id && m2 != id {
        assert maps[m1].tileOverlays.Keys !! maps[m2].tileOverlays.Keys;
      }
    }
  }

  lemma TileIdsIssue(maps: map<string, MapEntry>, c: nat, id: string, e: MapEntry)
    requires TileIdsValid(maps, c) && id in maps
    requires e.tileOverlays.Keys == maps[id].tileOverlays.Keys + {Decimal(c)}
    ensures Decimal(c) !in maps[id].tileOverlays
    ensures TileIdsValid(maps[id := e], c + 1)
  {
    var maps' := maps[id := e];
    NotYetIssued(c, c);
    IssuedGrows(c, c + 1);
    assert Decimal(c) in Issued(c + 1);
    assert IdsBelow(maps[id].tileOverlays.Keys, c);
    forall m | m in maps' ensures IdsBelow(maps'[m].tileOverlays.Keys, c + 1) {
      if m != id {
        assert IdsBelow(maps[m].tileOverlays.Keys, c);
      }
    }
    forall m1, m2 | m1 in maps' && m2 in maps' && m1 != m2
      ensures maps'[m1].tileOverlays.Keys !! maps'[m2].tileOverlays.Keys
    {
      assert maps[m1].tileOverlays.Keys !! maps[m2].tileOverlays.Keys;
      assert IdsBelow(maps[m1].tileOverlays.Keys, c) && IdsBelow(maps[m2].tileOverlays.Keys, c);
    }
  }

  /** Pushing a new overlay under a new key keeps the registry and the stack in agreement. */
  lemma OverlaysConsistentPush(e: MapEntry, key: string, ov: ImageMapType)
    requires OverlaysConsistent(e)
    requires key !in e.tileOverlays && ov !in e.overlayMapTypes
    ensures OverlaysConsistent(e.PushOverlay(key, ov))
  {
    var e' := e.PushOverlay(key, ov);
    forall k1, k2 | k1 in e'.tileOverlays && k2 in e'.tileOverlays && k1 != k2
      ensures e'.tileOverlays[k1] != e'.tileOverlays[k2]
    {
      if k1 != key && k2 != key {
        assert e.tileOverlays[k1] != e.tileOverlays[k2];
      } else if k1 == key {
        assert e.tileOverlays[k2] in e.overlayMapTypes;
      } else {
        assert e.tileOverlays[k1] in e.overlayMapTypes;
      }
    }
    forall k | k in e'.tileOverlays ensures e'.tileOverlays[k] in e'.overlayMapTypes {
      if k != key {
        assert e.tileOverlays[k] in e.overlayMapTypes;
      }
    }
  }

  /** Dropping position `i` keeps every value held at another position. */
  lemma RemoveAtKeeps<T>(s: seq<T>, i: nat, v: T)
    requires i < |s| && v in s && v != s[i]
    ensures v in s[..i] + s[i + 1..]
  {
    var j :| 0 <= j < |s| && s[j] == v;
    if j < i {
      assert (s[..i] + s[i + 1..])[j] == v;
    } else {
      assert (s[..i] + s[i + 1..])[j - 1] == v;
    }
  }

  /** Dropping a position from a sequence without repeats leaves one without repeats. */
  lemma RemoveAtDistinct<T>(s: seq<T>, i: nat)
    requires i < |s|
    requires forall p, q | 0 <= p < q < |s| :: s[p] != s[q]
    ensures var s' := s[..i] + s[i + 1..]; forall p, q | 0 <= p < q < |s'| :: s'[p] != s'[q]
  {
    var s' := s[..i] + s[i + 1..];
    forall p, q | 0 <= p < q < |s'| ensures s'[p] != s'[q] {
      var p0 := if p < i then p else p + 1;
      var q0 := if q < i then q else q + 1;
      assert s'[p] == s[p0] && s'[q] == s[q0];
    }
  }

  /**
   * Removing the stack position that holds the overlay registered under
   * `key`, together with that registry entry, keeps them in agreement.
   */
  lemma OverlaysConsistentRemove(e: MapEntry, key: string, i: nat)
    requires OverlaysConsistent(e)
    requires key in e.tileOverlays && i < |e.overlayMapTypes| && e.overlayMapTypes[i] == e.tileOverlays[key]
    ensures OverlaysConsistent(e.RemoveOverlay(key, i))
  {
    var s := e.overlayMapTypes;
    var e' := e.RemoveOverlay(key, i);
    RemoveAtDistinct(s, i);
    forall k | k in e'.tileOverlays ensures e'.tileOverlays[k] in e'.overlayMapTypes {
      assert e.tileOverlays[k] != e.tileOverlays[key];
      RemoveAtKeeps(s, i, e.tileOverlays[k]);
    }
  }

  /** Replacing or deleting one entry keeps every overlay stack consistent. */
  lemma OverlaysValidUpdate(maps: map<string, MapEntry>, id: string, e: MapEntry)
    requires OverlaysValid(maps) && OverlaysConsistent(e)
    ensures OverlaysValid(maps[id := e]) && OverlaysValid(maps - {id})
  {
  }

  /** Consistency depends on the tile-overlay registry and the overlay stack only. */
  lemma OverlaysConsistentOfSameTiles(e: MapEntry, e': MapEntry)
    requires OverlaysConsistent(e)
    requires e'.tileOverlays == e.tileOverlays && e'.overlayMapTypes == e.overlayMapTypes
    ensures OverlaysConsistent(e')
  {
  }

  /**
   * The six `curr*Id` counters of the plugin, as one value: the next id of
   * each kind of object, and the number of Map IDs generated so far.
   */
  datatype IdCounters = IdCounters(marker: nat, tileOverlay: nat, polygon: nat, circle: nat, polyline: nat, mapId: nat)
  {
    function Shape(k: ShapeKind): nat
    {
      match k
      case Marker => marker
      case Polygon => polygon
      case Circle => circle
      case Polyline => polyline
    }

    /** The counters after `n` ids of kind `k` were issued. */
    function AddShapes(k: ShapeKind, n: nat): (ic: IdCounters)
      ensures ic.Shape(k) == Shape(k) + n
      ensures forall k2 | k2 != k :: ic.Shape(k2) == Shape(k2)
      ensures ic.tileOverlay == tileOverlay && ic.mapId == mapId
    {
      match k
      case Marker => this.(marker := marker + n)
      case Polygon => this.(polygon := polygon + n)
      case Circle => this.(circle := circle + n)
      case Polyline => this.(polyline := polyline + n)
    }

    /** No counter of `this` is above its value in `later`. */
    predicate AtMost(later: IdCounters)
    {
      && marker <= later.marker && tileOverlay <= later.tileOverlay && polygon <= later.polygon
      && circle <= later.circle && polyline <= later.polyline && mapId <= later.mapId
    }
  }

  /** Issuing ids only ever raises the counters. */
  lemma AddShapesGrows(ic: IdCounters, k: ShapeKind, n: nat)
    ensures ic.AtMost(ic.AddShapes(k, n))
  {
  }

  /**
   * The plugin's invariant: every registered id was issued by its kind's
   * counter and no id of a kind is registered in two maps, and each map's
   * tile-overlay registry matches its overlay stack.
   */
  ghost predicate StateValid(maps: map<string, MapEntry>, ic: IdCounters)
  {
    && (forall k :: ShapeIdsValid(maps, k, ic.Shape(k)))
    && TileIdsValid(maps, ic.tileOverlay)
    && OverlaysValid(maps)
  }

  /** Before anything is created the invariant holds. */
  lemma StateInitial(ic: IdCounters)
    ensures StateValid(map[], ic)
  {
  }

  /** The Map ID counter plays no part in the invariant. */
  lemma StateIgnoresMapId(maps: map<string, MapEntry>, ic: IdCounters, n: nat)
    requires StateValid(maps, ic)
    ensures StateValid(maps, ic.(mapId := n))
  {
    var ic' := ic.(mapId := n);
    forall k ensures ShapeIdsValid(maps, k, ic'.Shape(k)) {
      assert ic'.Shape(k) == ic.Shape(k);
    }
  }

  /** `create` installs an entry with empty registries. */
  lemma StateInstall(maps: map<string, MapEntry>, ic: IdCounters, id: string, e: MapEntry)
    requires StateValid(maps, ic)
    requires forall k :: e.Shapes(k) == map[]
    requires e.tileOverlays == map[] && e.overlayMapTypes == []
    ensures StateValid(maps[id := e], ic)
  {
    forall k ensures ShapeIdsValid(maps[id := e], k, ic.Shape(k)) {
      ShapeIdsInstall(maps, k, ic.Shape(k), id, e);
    }
    TileIdsInstall(maps, ic.tileOverlay, id, e);
    OverlaysValidUpdate(maps, id, e);
  }

  /** `destroy` deletes an entry. */
  lemma StateDelete(maps: map<string, MapEntry>, ic: IdCounters, id: string)
    requires StateValid(maps, ic) && id in maps
    ensures StateValid(maps - {id}, ic)
  {
    forall k ensures ShapeIdsValid(maps - {id}, k, ic.Shape(k)) {
      ShapeIdsSubsume(maps, maps - {id}, k, ic.Shape(k), ic.Shape(k));
    }
    TileIdsSubsume(maps, maps - {id}, ic.tileOverlay, ic.tileOverlay);
    OverlaysValidUpdate(maps, id, maps[id]);
  }

  /**
   * An entry whose registries and overlay stack are those of the old entry
   * (the map type, the traffic layer or the clusterer changed) keeps the
   * invariant.
   */
  lemma StateSameRegistries(maps: map<string, MapEntry>, ic: IdCounters, id: string, e: MapEntry)
    requires StateValid(maps, ic) && id in maps
    requires forall k :: e.Shapes(k) == maps[id].Shapes(k)
    requires e.tileOverlays == maps[id].tileOverlays && e.overlayMapTypes == maps[id].overlayMapTypes
    ensures StateValid(maps[id := e], ic)
  {
    var maps' := maps[id := e];
    forall k ensures ShapeIdsValid(maps', k, ic.Shape(k)) {
      ShapeIdsSubsume(maps, maps', k, ic.Shape(k), ic.Shape(k));
    }
    TileIdsSubsume(maps, maps', ic.tileOverlay, ic.tileOverlay);
    OverlaysConsistentOfSameTiles(maps[id], e);
    OverlaysValidUpdate(maps, id, e);
  }

  /**
   * Replacing one registry of kind `kind` by a registry whose ids are among
   * the old ones keeps the invariant.
   */
  lemma StateShrinkShapes(maps: map<string, MapEntry>, ic: IdCounters, id: string,
                          kind: ShapeKind, r: map<string, JsObject>)
    requires StateValid(maps, ic) && id in maps
    requires r.Keys <= maps[id].Shapes(kind).Keys
    ensures StateValid(maps[id := maps[id].WithShapes(kind, r)], ic)
  {
    var e := maps[id].WithShapes(kind, r);
    var maps' := maps[id := e];
    forall k ensures ShapeIdsValid(maps', k, ic.Shape(k)) {
      ShapeIdsSubsume(maps, maps', k, ic.Shape(k), ic.Shape(k));
    }
    TileIdsSubsume(maps, maps', ic.tileOverlay, ic.tileOverlay);
    OverlaysConsistentOfSameTiles(maps[id], e);
    OverlaysValidUpdate(maps, id, e);
  }

  /**
   * Adding to one registry of kind `k` ids that the counter issued only
   * after its value `c` keeps the ids valid with the counter at `c + n`.
   */
  lemma ShapeIdsExtend(maps: map<string, MapEntry>, k: ShapeKind, c: nat, n: nat, id: string, r: map<string, JsObject>)
    requires ShapeIdsValid(maps, k, c) && id in maps
    requires forall key | key in r :: key in maps[id].Shapes(k) || (key in Issued(c + n) && key !in Issued(c))
    ensures ShapeIdsValid(maps[id := maps[id].WithShapes(k, r)], k, c + n)
  {
    var maps' := maps[id := maps[id].WithShapes(k, r)];
    IssuedGrows(c, c + n);
    forall m | m in maps' ensures IdsBelow(maps'[m].Shapes(k).Keys, c + n) {
      assert IdsBelow(maps[m].Shapes(k).Keys, c);
    }
    forall m1, m2 | m1 in maps' && m2 in maps' && m1 != m2
      ensures maps'[m1].Shapes(k).Keys !! maps'[m2].Shapes(k).Keys
    {
      assert maps[m1].Shapes(k).Keys !! maps[m2].Shapes(k).Keys;
      assert IdsBelow(maps[m1].Shapes(k).Keys, c) && IdsBelow(maps[m2].Shapes(k).Keys, c);
    }
  }

  /** Replacing a registry of another kind leaves the ids of kind `k` as they were. */
  lemma ShapeIdsOtherKind(maps: map<string, MapEntry>, k: ShapeKind, c: nat, id: string,
                          kind: ShapeKind, r: map<string, JsObject>)
    requires ShapeIdsValid(maps, k, c) && id in maps && k != kind
    ensures ShapeIdsValid(maps[id := maps[id].WithShapes(kind, r)], k, c)
  {
    var maps' := maps[id := maps[id].WithShapes(kind, r)];
    assert forall m | m in maps' :: maps'[m].Shapes(k) == maps[m].Shapes(k);
    ShapeIdsSubsume(maps, maps', k, c, c);
  }

  /** The same for the whole invariant: a batch of new ids of kind `kind` in map `id`. */
  lemma StateExtendShapes(maps: map<string, MapEntry>, ic: IdCounters, id: string,
                          kind: ShapeKind, n: nat, r: map<string, JsObject>)
    requires StateValid(maps, ic) && id in maps
    requires forall key | key in r ::
               key in maps[id].Shapes(kind) || (key in Issued(ic.Shape(kind) + n) && key !in Issued(ic.Shape(kind)))
    ensures StateValid(maps[id := maps[id].WithShapes(kind, r)], ic.AddShapes(kind, n))
  {
    var e := maps[id].WithShapes(kind, r);
    var maps' := maps[id := e];
    var ic' := ic.AddShapes(kind, n);
    assert forall k :: ShapeIdsValid(maps', k, ic'.Shape(k)) by {
      forall k ensures ShapeIdsValid(maps', k, ic'.Shape(k)) {
        if k == kind {
          ShapeIdsExtend(maps, k, ic.Shape(k), n, id, r);
        } else {
          ShapeIdsOtherKind(maps, k, ic.Shape(k), id, kind, r);
        }
      }
    }
    assert TileIdsValid(maps', ic'.tileOverlay) by {
      TileIdsSubsume(maps, maps', ic.tileOverlay, ic.tileOverlay);
    }
    assert OverlaysValid(maps') by {
      OverlaysConsistentOfSameTiles(maps[id], e);
      OverlaysValidUpdate(maps, id, e);
    }
  }

  /**
   * `addTileOverlay`: a new overlay registered in map `id` under the tile
   * counter's current value, with the counter advanced, keeps the invariant;
   * that id was not registered before.
   */
  lemma StateIssueTile(maps: map<string, MapEntry>, ic: IdCounters, id: string, ov: ImageMapType)
    requires StateValid(maps, ic) && id in maps
    requires ov !in maps[id].overlayMapTypes
    ensures Decimal(ic.tileOverlay) !in maps[id].tileOverlays
    ensures StateValid(maps[id := maps[id].PushOverlay(Decimal(ic.tileOverlay), ov)],
                       ic.(tileOverlay := ic.tileOverlay + 1))
  {
    var key := Decimal(ic.tileOverlay);
    var e := maps[id].PushOverlay(key, ov);
    var maps' := maps[id := e];
    var ic' := ic.(tileOverlay := ic.tileOverlay + 1);
    TileIdsIssue(maps, ic.tileOverlay, id, e);
    forall k ensures ShapeIdsValid(maps', k, ic'.Shape(k)) {
      ShapeIdsSubsume(maps, maps', k, ic.Shape(k), ic'.Shape(k));
    }
    OverlaysConsistentPush(maps[id], key, ov);
    OverlaysValidUpdate(maps, id, e);
  }

  /** `removeTileOverlay` on a matching stack position keeps the invariant. */
  lemma StateRemoveTile(maps: map<string, MapEntry>, ic: IdCounters, id: string, key: string, i: nat)
    requires StateValid(maps, ic) && id in maps
    requires key in maps[id].tileOverlays && i < |maps[id].overlayMapTypes|
    requires maps[id].overlayMapTypes[i] == maps[id].tileOverlays[key]
    ensures StateValid(maps[id := maps[id].RemoveOverlay(key, i)], ic)
  {
    var e := maps[id].RemoveOverlay(key, i);
    var maps' := maps[id := e];
    forall k ensures ShapeIdsValid(maps', k, ic.Shape(k)) {
      ShapeIdsSubsume(maps, maps', k, ic.Shape(k), ic.Shape(k));
    }
    TileIdsSubsume(maps, maps', ic.tileOverlay, ic.tileOverlay);
    OverlaysConsistentRemove(maps[id], key, i);
    OverlaysValidUpdate(maps, id, e);
  }

  /** The ids of a batch were issued by the counter after `c`, and only then. */
  lemma IdRangeIssued(c: nat, n: nat)
    ensures forall j | 0 <= j < n :: IdRange(c, n)[j] in Issued(c + n) && IdRange(c, n)[j] !in Issued(c)
  {
    forall j | 0 <= j < n
      ensures IdRange(c, n)[j] in Issued(c + n) && IdRange(c, n)[j] !in Issued(c)
    {
      NotYetIssued(c, c + j);
      IssuedGrows(c + j + 1, c + n);
    }
  }

  /** Two batches issued one after the other share no id. */
  lemma BatchesDisjoint(c: nat, n: nat, c': nat, n': nat)
    requires c + n <= c'
    ensures forall i, j | 0 <= i < n && 0 <= j < n' :: IdRange(c, n)[i] != IdRange(c', n')[j]
  {
    forall i, j | 0 <= i < n && 0 <= j < n' ensures IdRange(c, n)[i] != IdRange(c', n')[j] {
      if Decimal(c + i) == Decimal(c' + j) {
        DecimalInjective(c + i, c' + j);
      }
    }
  }

  /**
   * The ids the next batch of kind `kind` receives are registered in no
   * map, even where objects of that kind were removed or their map
   * destroyed.
   */
  lemma NextBatchIsFresh(maps: map<string, MapEntry>, ic: IdCounters, kind: ShapeKind, n: nat)
    requires StateValid(maps, ic)
    ensures forall m, j | m in maps && 0 <= j < n :: IdRange(ic.Shape(kind), n)[j] !in maps[m].Shapes(kind)
  {
    var c := ic.Shape(kind);
    assert ShapeIdsValid(maps, kind, c);
    forall m, j | m in maps && 0 <= j < n ensures IdRange(c, n)[j] !in maps[m].Shapes(kind) {
      assert IdsBelow(maps[m].Shapes(kind).Keys, c);
      LaterIdsAreFresh(maps[m].Shapes(kind).Keys, c, c + j);
    }
  }

  /** The ids `start`, `start + 1`, ... as strings. */
  function IdRange(start: nat, n: nat): (ids: seq<string>)
    ensures |ids| == n
    ensures forall i | 0 <= i < n :: ids[i] == Decimal(start + i)
  {
    seq(n, i requires 0 <= i < n => Decimal(start + i))
  }

  lemma IdRangeSnoc(start: nat, n: nat)
    ensures IdRange(start, n + 1) == IdRange(start, n) + [Decimal(start + n)]
  {
  }

  /** The ids of one batch are pairwise distinct. */
  lemma IdRangeDistinct(start: nat, n: nat)
    ensures forall i, j | 0 <= i < j < n :: IdRange(start, n)[i] != IdRange(start, n)[j]
  {
    forall i, j | 0 <= i < j < n
      ensures IdRange(start, n)[i] != IdRange(start, n)[j]
    {
      if Decimal(start + i) == Decimal(start + j) {
        DecimalInjective(start + i, start + j);
      }
    }
  }

  /** `reg` after binding the ids issued from `c` on, in order, to `objs`. */
  function Registered(reg: map<string, JsObject>, c: nat, objs: seq<JsObject>): map<string, JsObject>
  {
    if objs == [] then reg
    else Registered(reg, c, objs[..|objs| - 1])[Decimal(c + |objs| - 1) := objs[|objs| - 1]]
  }

  lemma RegisteredSnoc(reg: map<string, JsObject>, c: nat, objs: seq<JsObject>, obj: JsObject)
    ensures Registered(reg, c, objs + [obj]) == Registered(reg, c, objs)[Decimal(c + |objs|) := obj]
  {
    assert (objs + [obj])[..|objs|] == objs;
  }

  /** Binding one more fresh key to one more object keeps the shape of a batch registration. */
  lemma BindFresh<V>(reg: map<string, V>, r0: map<string, V>, ids: seq<string>, vals: seq<V>, key: string, v: V)
    requires |ids| == |vals| && key !in reg && key !in ids
    requires forall k :: k in r0 <==> k in reg || k in ids
    requires forall k | k in reg :: r0[k] == reg[k]
    requires forall j | 0 <= j < |ids| :: r0[ids[j]] == vals[j]
    ensures forall k :: k in r0[key := v] <==> k in reg || k in ids + [key]
    ensures forall k | k in reg :: r0[key := v][k] == reg[k]
    ensures forall j | 0 <= j < |ids| + 1 :: r0[key := v][(ids + [key])[j]] == (vals + [v])[j]
  {
    forall j | 0 <= j < |ids| + 1 ensures r0[key := v][(ids + [key])[j]] == (vals + [v])[j] {
      if j < |ids| {
        assert (ids + [key])[j] == ids[j] != key;
      }
    }
  }

  /**
   * A batch keeps the registry's earlier bindings and adds exactly the
   * batch's ids, the `j`-th bound to the `j`-th object.
   */
  lemma {:induction false} RegisteredContents(reg: map<string, JsObject>, c: nat, objs: seq<JsObject>)
    requires IdsBelow(reg.Keys, c)
    ensures forall key :: key in Registered(reg, c, objs) <==> key in reg || key in IdRange(c, |objs|)
    ensures forall key | key in reg :: Registered(reg, c, objs)[key] == reg[key]
    ensures forall j | 0 <= j < |objs| :: Registered(reg, c, objs)[IdRange(c, |objs|)[j]] == objs[j]
  {
    if objs != [] {
      var n := |objs| - 1;
      var prev := objs[..n];
      var key := Decimal(c + n);
      RegisteredContents(reg, c, prev);
      LaterIdsAreFresh(reg.Keys, c, c + n);
      IdRangeDistinct(c, n + 1);
      IdRangeSnoc(c, n);
      assert key !in IdRange(c, n) by {
        forall j | 0 <= j < n ensures IdRange(c, n)[j] != key {
          assert IdRange(c, n + 1)[j] != IdRange(c, n + 1)[n];
        }
      }
      assert objs == prev + [objs[n]];
      BindFresh(reg, Registered(reg, c, prev), IdRange(c, n), prev, key, objs[n]);
    }
  }

  /**
   * `reg` is `reg0` plus one binding per item: the `j`-th id to an object
   * built from the `j`-th item.
   */
  ghost predicate BatchBound(reg0: map<string, JsObject>, reg: map<string, JsObject>, ids: seq<string>, items: seq<Json>)
  {
    && |ids| == |items|
    && (forall key :: key in reg <==> key in reg0 || key in ids)
    && (forall key | key in reg0 :: reg[key] == reg0[key])
    && (forall j | 0 <= j < |items| :: ids[j] in reg && reg[ids[j]].options == items[j])
  }

  /**
   * Registering a batch of objects, built one per item, under the ids a
   * counter issues from `c0` on: the registry is `reg0` plus the batch,
   * and every id it gained was issued during the batch.
   */
  lemma BatchRegistered(reg0: map<string, JsObject>, c0: nat, objs: seq<JsObject>, items: seq<Json>)
    requires IdsBelow(reg0.Keys, c0) && |objs| == |items|
    requires forall j | 0 <= j < |items| :: objs[j].options == items[j]
    ensures BatchBound(reg0, Registered(reg0, c0, objs), IdRange(c0, |items|), items)
    ensures forall j | 0 <= j < |items| :: Registered(reg0, c0, objs)[IdRange(c0, |items|)[j]] == objs[j]
    ensures forall key | key in Registered(reg0, c0, objs) ::
              key in reg0 || (key in Issued(c0 + |items|) && key !in Issued(c0))
  {
    var reg, ids := Registered(reg0, c0, objs), IdRange(c0, |items|);
    RegisteredContents(reg0, c0, objs);
    IdRangeIssued(c0, |items|);
    forall key | key in reg ensures key in reg0 || (key in Issued(c0 + |items|) && key !in Issued(c0)) {
      if key !in reg0 {
        var j :| 0 <= j < |ids| && ids[j] == key;
      }
    }
  }

  /** What a removal by `removePolygons`, `removeCircles` or `removePolylines` leaves. */
  datatype Removal<V> = Removal(remaining: map<string, V>, completed: bool)

  /**
   * Deletes the ids in order; the first id that is not registered (also a
   * repeated one) stops the removal, keeping what was already deleted.
   */
  function StrictRemove<V>(reg: map<string, V>, ids: seq<string>): (r: Removal<V>)
    ensures r.remaining.Keys <= reg.Keys
    ensures forall k | k in r.remaining :: r.remaining[k] == reg[k]
    ensures forall k | k in reg && k !in ids :: k in r.remaining
    decreases |ids|
  {
    if ids == [] then Removal(reg, true)
    else if ids[0] !in reg then Removal(reg, false)
    else StrictRemove(reg - {ids[0]}, ids[1..])
  }

  predicate Distinct(ids: seq<string>)
  {
    forall i, j | 0 <= i < j < |ids| :: ids[i] != ids[j]
  }

  /**
   * The removal completes exactly when the ids are distinct and all
   * registered, and then it deletes exactly those ids.
   */
  lemma {:induction false} StrictRemoveCompletes<V>(reg: map<string, V>, ids: seq<string>)
    ensures StrictRemove(reg, ids).completed <==> Distinct(ids) && forall i | 0 <= i < |ids| :: ids[i] in reg
    ensures StrictRemove(reg, ids).completed ==>
              StrictRemove(reg, ids).remaining.Keys == reg.Keys - (set k | k in ids)
    decreases |ids|
  {
    if ids != [] && ids[0] in reg {
      var rest := ids[1..];
      StrictRemoveCompletes(reg - {ids[0]}, rest);
      if Distinct(ids) && forall i | 0 <= i < |ids| :: ids[i] in reg {
        assert forall i | 0 <= i < |rest| :: rest[i] in reg - {ids[0]} by {
          forall i | 0 <= i < |rest| ensures rest[i] in reg - {ids[0]} {
            assert rest[i] == ids[i + 1] && ids[i + 1] != ids[0];
          }
        }
      }
      if StrictRemove(reg, ids).completed {
        assert Distinct(rest);
        forall i | 0 <= i < |ids| ensures ids[i] in reg {
          if i > 0 { assert ids[i] == rest[i - 1]; }
        }
        forall i, j | 0 <= i < j < |ids| ensures ids[i] != ids[j] {
          if i == 0 {
            assert ids[j] == rest[j - 1] && rest[j - 1] in reg - {ids[0]};
          } else {
            assert ids[i] == rest[i - 1] && ids[j] == rest[j - 1];
          }
        }
        assert (set k | k in ids) == {ids[0]} + (set k | k in rest);
      }
    }
  }

}
