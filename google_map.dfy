/**
 * The `GoogleMap` facade that applications use: the checks and defaults of
 * `create`, the sixteen event-listener slots, the filter that routes plugin
 * events to the map they belong to, the one-shot `onMapReady` listener and
 * the resize observer's `lastState`. Calls into the plugin bridge are
 * recorded, in order, in a log.
 */
module GoogleMapFacade {
  import opened Wrappers
  import opened Json

  /** The map events an application can listen to, in the order `removeAllMapListeners` visits them. */
  datatype EventKind =
    | BoundsChanged | CameraIdle | CameraMoveStarted | ClusterClick | ClusterInfoWindowClick
    | InfoWindowClick | MapClick | PolylineClick | MarkerClick | PolygonClick | CircleClick
    | MarkerDragStart | MarkerDrag | MarkerDragEnd | MyLocationButtonClick | MyLocationClick

  /** The plugin event each slot subscribes to. */
  function EventName(k: EventKind): string
  {
    match k
    case BoundsChanged => "onBoundsChanged"
    case CameraIdle => "onCameraIdle"
    case CameraMoveStarted => "onCameraMoveStarted"
    case ClusterClick => "onClusterClick"
    case ClusterInfoWindowClick => "onClusterInfoWindowClick"
    case InfoWindowClick => "onInfoWindowClick"
    case MapClick => "onMapClick"
    case PolylineClick => "onPolylineClick"
    case MarkerClick => "onMarkerClick"
    case PolygonClick => "onPolygonClick"
    case CircleClick => "onCircleClick"
    case MarkerDragStart => "onMarkerDragStart"
    case MarkerDrag => "onMarkerDrag"
    case MarkerDragEnd => "onMarkerDragEnd"
    case MyLocationButtonClick => "onMyLocationButtonClick"
    case MyLocationClick => "onMyLocationClick"
  }

  /** Different slots subscribe to different events. */
  lemma EventNameInjective(k1: EventKind, k2: EventKind)
    requires EventName(k1) == EventName(k2)
    ensures k1 == k2
  {
  }

  /** The order in which `removeAllMapListeners` clears the slots. */
  const RemovalOrder: seq<EventKind> :=
    [BoundsChanged, CameraIdle, CameraMoveStarted, ClusterClick, ClusterInfoWindowClick, InfoWindowClick,
     MapClick, PolylineClick, MarkerClick, PolygonClick, CircleClick, MarkerDragStart, MarkerDrag,
     MarkerDragEnd, MyLocationButtonClick, MyLocationClick]

  predicate NoDuplicates<T(==)>(s: seq<T>)
  {
    forall i, j | 0 <= i < j < |s| :: s[i] != s[j]
  }

  /** Where `removeAllMapListeners` visits each slot. */
  function Position(k: EventKind): (i: nat)
    ensures i < |RemovalOrder| && RemovalOrder[i] == k
  {
    match k
    case BoundsChanged => 0
    case CameraIdle => 1
    case CameraMoveStarted => 2
    case ClusterClick => 3
    case ClusterInfoWindowClick => 4
    case InfoWindowClick => 5
    case MapClick => 6
    case PolylineClick => 7
    case MarkerClick => 8
    case PolygonClick => 9
    case CircleClick => 10
    case MarkerDragStart => 11
    case MarkerDrag => 12
    case MarkerDragEnd => 13
    case MyLocationButtonClick => 14
    case MyLocationClick => 15
  }

  /** `removeAllMapListeners` visits every slot, each once. */
  lemma RemovalOrderVisitsEverySlotOnce()
    ensures forall k :: k in RemovalOrder
    ensures NoDuplicates(RemovalOrder)
  {
    forall k ensures k in RemovalOrder {
      assert RemovalOrder[Position(k)] == k;
    }
    forall i, j | 0 <= i < j < |RemovalOrder| ensures RemovalOrder[i] != RemovalOrder[j] {
      assert EventName(RemovalOrder[i]) != EventName(RemovalOrder[j]);
    }
  }

  /** An application callback, opaque to the model. */
  datatype Callback = Callback(ref: nat)

  /**
   * `generateCallback`: an event is passed on to the application only when
   * its `mapId` is this map's id.
   */
  predicate Forwards(mapId: string, data: Object)
  {
    Get(data, "mapId") == Some(JStr(mapId))
  }

  /** An event is forwarded to at most one of two maps with different ids. */
  lemma ForwardedToOneMapAtMost(m1: string, m2: string, data: Object)
    requires m1 != m2
    ensures !(Forwards(m1, data) && Forwards(m2, data))
  {
  }

  /** The wrapper `generateCallback` builds around `callback` for the map `mapId`. */
  datatype FilteredCallback = FilteredCallback(mapId: string, callback: Callback)
  {
    /** The callback invocation an event leads to, if any. */
    function Deliver(data: Object): (r: Option<(Callback, Object)>)
      ensures r.Some? <==> Forwards(mapId, data)
      ensures r.Some? ==> r.value == (callback, data)
    {
      if Forwards(mapId, data) then Some((callback, data)) else None
    }
  }

  /** The handle `addListener` returns; `remove()` unsubscribes it. */
  class ListenerHandle {
    const eventName: string
    const handler: FilteredCallback

    constructor (eventName: string, handler: FilteredCallback)
      ensures this.eventName == eventName && this.handler == handler
    {
      this.eventName := eventName;
      this.handler := handler;
    }
  }

  /** The calls the facade makes into the plugin bridge. */
  datatype BridgeCall =
    | AddListener(eventName: string, handle: ListenerHandle)
    | RemoveListener(handle: ListenerHandle)
    | DestroyMap(mapId: string)

  /** The `remove()` calls for the slots of `slots` that `order` visits and finds set, in that order. */
  function RemovalCalls(slots: map<EventKind, ListenerHandle>, order: seq<EventKind>): seq<BridgeCall>
  {
    if order == [] then []
    else
      var k := order[|order| - 1];
      RemovalCalls(slots, order[..|order| - 1]) + (if k in slots then [RemoveListener(slots[k])] else [])
  }

  /** One more step of a removal order without repeats removes one slot not removed before. */
  lemma RemovalStep(slots: map<EventKind, ListenerHandle>, order: seq<EventKind>, i: nat)
    requires NoDuplicates(order) && i < |order|
    ensures order[i] !in order[..i]
    ensures forall k :: k in order[..i + 1] <==> k in order[..i] || k == order[i]
    ensures RemovalCalls(slots, order[..i + 1])
            == RemovalCalls(slots, order[..i]) + (if order[i] in slots then [RemoveListener(slots[order[i]])] else [])
  {
    assert order[..i + 1] == order[..i] + [order[i]];
    assert order[..i + 1][..i] == order[..i];
    forall j | 0 <= j < i ensures order[..i][j] != order[i] {
      assert order[j] != order[i];
    }
  }

  /** How often `x` occurs in `s`. */
  function Count<T(==)>(s: seq<T>, x: T): nat
  {
    multiset(s)[x]
  }

  /** The slots hold pairwise different handles. */
  predicate HandlesDistinct(slots: map<EventKind, ListenerHandle>)
  {
    forall k1, k2 | k1 in slots && k2 in slots && k1 != k2 :: slots[k1] != slots[k2]
  }

  /**
   * Visiting distinct slots removes the handle of each visited slot that is
   * set exactly once, that of an unvisited slot never, and nothing else.
   */
  lemma {:induction false} RemovalCallsCount(slots: map<EventKind, ListenerHandle>, order: seq<EventKind>)
    requires HandlesDistinct(slots) && NoDuplicates(order)
    ensures forall k | k in slots :: Count(RemovalCalls(slots, order), RemoveListener(slots[k])) == if k in order then 1 else 0
    ensures forall c | c in RemovalCalls(slots, order) :: exists k | k in slots && k in order :: c == RemoveListener(slots[k])
  {
    if order != [] {
      var n := |order| - 1;
      var last := order[n];
      var prefix := order[..n];
      assert order == prefix + [last];
      assert last !in prefix by {
        forall i | 0 <= i < n ensures prefix[i] != last {
          assert order[i] != order[n];
        }
      }
      RemovalCallsCount(slots, prefix);
      var tail: seq<BridgeCall> := if last in slots then [RemoveListener(slots[last])] else [];
      assert RemovalCalls(slots, order) == RemovalCalls(slots, prefix) + tail;
      forall k | k in slots
        ensures Count(RemovalCalls(slots, order), RemoveListener(slots[k])) == if k in order then 1 else 0
      {
        assert k in order <==> k in prefix || k == last;
        if last in slots && k != last {
          assert RemoveListener(slots[k]) != RemoveListener(slots[last]);
        }
      }
      forall c | c in RemovalCalls(slots, order) ensures exists k | k in slots && k in order :: c == RemoveListener(slots[k]) {
        if c in RemovalCalls(slots, prefix) {
          var k :| k in slots && k in prefix && c == RemoveListener(slots[k]);
          assert k in order;
        } else {
          assert c in tail;
          assert last in order;
        }
      }
    }
  }

  /** `removeAllMapListeners` calls `remove()` once on the handle of every set slot, and on nothing else. */
  lemma RemoveAllRemovesEachOnce(slots: map<EventKind, ListenerHandle>)
    requires HandlesDistinct(slots)
    ensures forall k | k in slots :: Count(RemovalCalls(slots, RemovalOrder), RemoveListener(slots[k])) == 1
    ensures forall c | c in RemovalCalls(slots, RemovalOrder) :: exists k | k in slots :: c == RemoveListener(slots[k])
  {
    RemovalOrderVisitsEverySlotOnce();
    RemovalCallsCount(slots, RemovalOrder);
  }

  class GoogleMap {
    const id: string
    /** The sixteen `on*Listener` fields; a slot that is absent is `undefined`. */
    var slots: map<EventKind, ListenerHandle>
    /** The bridge calls made so far. */
    var calls: seq<BridgeCall>

    /** Each slot holds a distinct handle subscribed to its own event, filtered by this map's id. */
    ghost predicate Valid()
      reads this
    {
      && HandlesDistinct(slots)
      && (forall k | k in slots :: slots[k].eventName == EventName(k) && slots[k].handler.mapId == id)
    }

    constructor (id: string)
      ensures Valid() && this.id == id && slots == map[] && calls == []
    {
      this.id := id;
      slots := map[];
      calls := [];
    }

    /**
     * `setOn<Event>Listener`: the handle in the slot, if any, is removed
     * first; a callback is then subscribed through `generateCallback`,
     * and without one the slot is left `undefined`.
     */
    method SetListener(kind: EventKind, callback: Option<Callback>)
      requires Valid()
      modifies this
      ensures Valid()
      ensures callback.None? ==> slots == old(slots) - {kind}
      ensures callback.Some? ==>
                && kind in slots && fresh(slots[kind])
                && slots == old(slots)[kind := slots[kind]]
                && slots[kind].eventName == EventName(kind)
                && slots[kind].handler == FilteredCallback(id, callback.value)
      ensures calls == old(calls)
                       + (if kind in old(slots) then [RemoveListener(old(slots)[kind])] else [])
                       + (if callback.Some? then [AddListener(EventName(kind), slots[kind])] else [])
    {
      if kind in slots {
        calls := calls + [RemoveListener(slots[kind])];
      }
      if callback.Some? {
        var handle := new ListenerHandle(EventName(kind), FilteredCallback(id, callback.value));
        calls := calls + [AddListener(EventName(kind), handle)];
        slots := slots[kind := handle];
      } else {
        slots := slots - {kind};
      }
    }

    /** Removes the slots of `order`, in turn, each at most once. */
    method RemoveInOrder(order: seq<EventKind>)
      requires Valid() && NoDuplicates(order)
      modifies this
      ensures Valid()
      ensures forall k :: k in slots <==> k in old(slots) && k !in order
      ensures forall k | k in slots :: slots[k] == old(slots)[k]
      ensures calls == old(calls) + RemovalCalls(old(slots), order)
    {
      ghost var slots0 := slots;
      var i := 0;
      while i < |order|
        invariant 0 <= i <= |order|
        invariant calls == old(calls) + RemovalCalls(slots0, order[..i])
        invariant forall k :: k in slots <==> k in slots0 && k !in order[..i]
        invariant forall k | k in slots :: slots[k] == slots0[k]
        invariant Valid()
      {
        RemovalStep(slots0, order, i);
        SetListener(order[i], None);
        i := i + 1;
      }
      assert order[..i] == order;
    }

    /** `removeAllMapListeners`: every set slot, in the fixed order, is removed and left `undefined`. */
    method RemoveAllMapListeners()
      requires Valid()
      modifies this
      ensures Valid() && slots == map[]
      ensures calls == old(calls) + RemovalCalls(old(slots), RemovalOrder)
    {
      RemovalOrderVisitsEverySlotOnce();
      RemoveInOrder(RemovalOrder);
    }

    /** `destroy`: every listener is removed before the bridge is asked to destroy the map. */
    method Destroy()
      requires Valid()
      modifies this
      ensures Valid() && slots == map[]
      ensures calls == old(calls) + RemovalCalls(old(slots), RemovalOrder) + [DestroyMap(id)]
    {
      RemoveAllMapListeners();
      calls := calls + [DestroyMap(id)];
    }
  }

  /**
   * The `onMapReady` listener `create` subscribes when given a callback: it
   * passes on the first event for its map and then removes itself.
   */
  class MapReadyListener {
    const mapId: string
    const callback: Callback
    var subscribed: bool
    /** The events passed to the callback. */
    var delivered: seq<Object>

    /** The callback ran at most once, for this map, and exactly when the listener is gone. */
    ghost predicate Valid()
      reads this
    {
      && |delivered| <= 1
      && (subscribed <==> delivered == [])
      && (forall d | d in delivered :: Forwards(mapId, d))
    }

    constructor (mapId: string, callback: Callback)
      ensures Valid() && this.mapId == mapId && subscribed && delivered == []
    {
      this.mapId := mapId;
      this.callback := callback;
      subscribed := true;
      delivered := [];
    }

    /** An `onMapReady` event reaches the listener if it is still subscribed. */
    method OnEvent(data: Object)
      requires Valid()
      modifies this
      ensures Valid()
      ensures delivered == old(delivered) + (if old(subscribed) && Forwards(mapId, data) then [data] else [])
    {
      if subscribed && Forwards(mapId, data) {
        delivered := delivered + [data];
        subscribed := false;
      }
    }
  }

  /** The observed size of the map element, and whether it was hidden. */
  datatype ResizeState = ResizeState(width: real, height: real, isHidden: bool)

  /** What the resize observer reports to the plugin. */
  datatype ResizeReport = ReportDisplay | ReportResize

  /**
   * One observation of the element at `width` by `height`. An element of
   * zero width and zero height is hidden. Becoming visible reports
   * `onDisplay` only when `displayOnReveal` (iOS without an enclosing
   * Ionic page); staying visible at a new size reports `onResize`.
   */
  function ResizeStep(last: ResizeState, width: real, height: real, displayOnReveal: bool): (r: (ResizeState, Option<ResizeReport>))
    ensures r.0 == ResizeState(width, height, width == 0.0 && height == 0.0)
    ensures r.1 == Some(ReportDisplay) <==> !r.0.isHidden && last.isHidden && displayOnReveal
    ensures r.1 == Some(ReportResize) <==>
              !r.0.isHidden && !last.isHidden && (last.width != width || last.height != height)
  {
    var isHidden := width == 0.0 && height == 0.0;
    var report :=
      if isHidden then None
      else if last.isHidden then (if displayOnReveal then Some(ReportDisplay) else None)
      else if last.width != width || last.height != height then Some(ReportResize)
      else None;
    (ResizeState(width, height, isHidden), report)
  }

  /** Observing the same size twice in a row reports nothing the second time. */
  lemma ResizeStepRepeat(last: ResizeState, width: real, height: real, displayOnReveal: bool)
    ensures var r := ResizeStep(last, width, height, displayOnReveal);
            ResizeStep(r.0, width, height, displayOnReveal).1 == None
  {
  }

  /** A reveal never reports `onResize`, and a hidden element reports nothing. */
  lemma ResizeStepReveal(last: ResizeState, width: real, height: real, displayOnReveal: bool)
    ensures last.isHidden ==> ResizeStep(last, width, height, displayOnReveal).1 != Some(ReportResize)
    ensures width == 0.0 && height == 0.0 ==> ResizeStep(last, width, height, displayOnReveal).1 == None
  {
  }

  /** The resize observer `create` installs on native platforms, with its `lastState`. */
  class ResizeObserver {
    const displayOnReveal: bool
    var width: real
    var height: real
    var isHidden: bool

    function LastState(): ResizeState
      reads this
    {
      ResizeState(width, height, isHidden)
    }

    /** `lastState` starts at the element's bounds, visible. */
    constructor (bounds: Rect, displayOnReveal: bool)
      ensures LastState() == ResizeState(bounds.width, bounds.height, false)
      ensures this.displayOnReveal == displayOnReveal
    {
      this.displayOnReveal := displayOnReveal;
      width := bounds.width;
      height := bounds.height;
      isHidden := false;
    }

    /** The observer callback: reports per `ResizeStep` and always overwrites `lastState`. */
    method Observe(rectWidth: real, rectHeight: real) returns (report: Option<ResizeReport>)
      modifies this
      ensures (LastState(), report) == ResizeStep(old(LastState()), rectWidth, rectHeight, displayOnReveal)
    {
      var hidden := rectWidth == 0.0 && rectHeight == 0.0;
      report := None;
      if !hidden {
        if isHidden {
          if displayOnReveal {
            report := Some(ReportDisplay);
          }
        } else if width != rectWidth || height != rectHeight {
          report := Some(ReportResize);
        }
      }
      width := rectWidth;
      height := rectHeight;
      isHidden := hidden;
    }
  }

  /** A `getBoundingClientRect()` result. */
  datatype Rect = Rect(x: real, y: real, width: real, height: real)

  const ElementRequired: string := "container element is required"

  /**
   * The checks and defaults of `create` before the bridge call: a missing
   * element fails before anything else; `androidLiteMode` becomes `false`
   * only when the key is absent; the element's bounds and the device pixel
   * ratio are written into the config.
   */
  function PrepareCreate(hasElement: bool, config: Object, bounds: Rect, devicePixelRatio: real): (r: Result<Object, string>)
    ensures !hasElement <==> r == Failure(ElementRequired)
    ensures r.Success? ==>
              && Get(r.value, "androidLiteMode") == (if "androidLiteMode" in config then Some(config["androidLiteMode"]) else Some(JBool(false)))
              && Get(r.value, "width") == Some(JNum(bounds.width)) && Get(r.value, "height") == Some(JNum(bounds.height))
              && Get(r.value, "x") == Some(JNum(bounds.x)) && Get(r.value, "y") == Some(JNum(bounds.y))
              && Get(r.value, "devicePixelRatio") == Some(JNum(devicePixelRatio))
              && r.value.Keys == config.Keys + {"androidLiteMode", "width", "height", "x", "y", "devicePixelRatio"}
              && (forall k | k in config && k !in CreateKeys :: r.value[k] == config[k])
  {
    if !hasElement then Failure(ElementRequired)
    else
      var c := if "androidLiteMode" in config then config else config["androidLiteMode" := JBool(false)];
      Success(c["width" := JNum(bounds.width)]["height" := JNum(bounds.height)]["x" := JNum(bounds.x)]
               ["y" := JNum(bounds.y)]["devicePixelRatio" := JNum(devicePixelRatio)])
  }

  /** The config keys `create` writes. */
  const CreateKeys: set<string> := {"androidLiteMode", "width", "height", "x", "y", "devicePixelRatio"}

  /** An explicit `androidLiteMode`, `null` and `false` included, survives `create`. */
  lemma PrepareCreateKeepsLiteMode(config: Object, bounds: Rect, devicePixelRatio: real)
    requires "androidLiteMode" in config
    ensures var r := PrepareCreate(true, config, bounds, devicePixelRatio);
            r.Success? && r.value["androidLiteMode"] == config["androidLiteMode"]
  {
  }
}
