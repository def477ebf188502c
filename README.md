# capacitor-google-maps core, modelled in Dafny

This project models the core of the Capacitor Google Maps plugin. It covers:

- **The web implementation** (`CapacitorGoogleMapsWeb`, modules `WebPlugin`, `WebState`, `WebSdk`, `MapTypes`).
  A dictionary of live maps, each holding registries of markers, polygons, circles, polylines and tile
  overlays, plus six plugin-wide counters that hand out the ids of those objects. Proved:
  - every registered id was issued by its kind's counter;
  - no id of a kind is registered in two maps;
  - a map's tile-overlay registry matches its overlay stack;
  - every add, remove and clustering call changes exactly the entry it names.
- **The JavaScript `GoogleMap` facade** (`GoogleMapFacade`). Covers:
  - the checks `create` makes before calling the native side;
  - the resize observer's state machine;
  - the `onMapReady` one-shot listener;
  - the 16 event-listener slots and how `removeAllMapListeners` and `destroy` empty them.
- **The native config parsers:**
  - the iOS `GoogleMapConfig` (`IosMapConfig`);
  - the Android `GoogleMapConfig` and its `GoogleMapConfigRestriction` (`AndroidMapConfig`);
  - the three tile-overlay readers (`IosTileOverlay`, `IosLegacyTileOverlay`, `AndroidTileOverlay`).

  Each parser reports the first missing key in the order the source checks them. The zoom is clamped
  into the optional `[minZoom, maxZoom]` range. The platforms differ on an inverted range:
  - iOS swaps the bounds before clamping;
  - the Android guard tests the field `maxZoom`, which is still `null` at that point, so Android never swaps.

  Each platform is modelled as written. The lemmas show that the two agree when `minZoom <= maxZoom` and
  differ on the input `(zoom 7, min 10, max 5)`.

Supporting modules:

- `Wrappers`: `Option`, `Result`, `Outcome`.
- `Json`: JSON values.
- `Text`: decimal rendering, lower/upper case, first-occurrence replace.
- `SwiftJson`: Swift `as?` casts on a `JSObject`.
- `OrgJson`: the `org.json` accessors the Kotlin code calls.

Modelling choices:

- JavaScript property reads on `undefined` raise `TypeError`. Here that is a `TypeError` result that leaves
  the state unchanged.
- SDK objects (`google.maps.Map`, markers, `ImageMapType`) are instances of small classes, so
  `new` gives an object that is `fresh` and identity is reference equality.
- The native bridge calls made by the facade are recorded as a sequence of `BridgeCall`s.

## Model

| member | source | states |
|---|---|---|
| WebPlugin.ConfigWithMapId | plugin/src/web.ts:490-494 | a config with a truthy `mapId` is passed on unchanged; otherwise `mapId` becomes `capacitor_map_<currMapId>` and every other key is kept |
| WebPlugin.IndexOfObject | plugin/src/web.ts:296-302 | the first stack position holding the overlay (no earlier one holds it), or the stack length |
| WebPlugin.Unsupported | plugin/src/web.ts:474-484 | `onScroll`, `onResize`, `onDisplay` (and `enableIndoorMaps`, `enableAccessibilityElements`, `dispatchMapEvent`, lines 181-203) always fail with `Method not supported on web.` |
| WebPlugin.CapacitorGoogleMapsWeb.constructor | plugin/src/web.ts:38-66 | no maps, all six counters 0, the registry invariant holds |
| WebPlugin.CapacitorGoogleMapsWeb.Create | plugin/src/web.ts:486-506 | installs an entry with empty registries under the id, built on a fresh SDK map with the config from `ConfigWithMapId`; `currMapId` advances only when it was used; `onMapReady` is announced; the invariant is kept |
| WebPlugin.CapacitorGoogleMapsWeb.Destroy | plugin/src/web.ts:508-514 | deletes exactly that entry, counters untouched; an unknown id is a `TypeError` with nothing changed |
| WebPlugin.CapacitorGoogleMapsWeb.NewShapes | plugin/src/web.ts:309-320 | the add loop: the i-th item gets id `Decimal(c0 + i)`, bound to a fresh SDK object built from that item, earlier entries kept, no other key added |
| WebPlugin.CapacitorGoogleMapsWeb.AddShapes | plugin/src/web.ts:306-323 | a batch gets consecutive ids from the kind's counter, each bound to a new object for its item; the counter advances by the batch size; only that registry of that map changes; an unknown map fails only when there is an item |
| WebPlugin.CapacitorGoogleMapsWeb.AddMarkers | plugin/src/web.ts:306-323 | `AddShapes` for markers |
| WebPlugin.CapacitorGoogleMapsWeb.AddMarker | plugin/src/web.ts:325-336 | one marker under id `currMarkerId`, which then advances; an unknown map fails before anything changes |
| WebPlugin.CapacitorGoogleMapsWeb.AddPolygons | plugin/src/web.ts:356-373 | `AddShapes` for polygons |
| WebPlugin.CapacitorGoogleMapsWeb.AddCircles | plugin/src/web.ts:384-401 | `AddShapes` for circles |
| WebPlugin.CapacitorGoogleMapsWeb.AddPolylines | plugin/src/web.ts:412-432 | `AddShapes` for polylines |
| WebPlugin.CapacitorGoogleMapsWeb.DeleteEach | plugin/src/web.ts:341-346 | the result is the registry minus exactly the listed ids |
| WebPlugin.CapacitorGoogleMapsWeb.RemoveMarkers | plugin/src/web.ts:338-347 | the listed registered markers are deleted and unregistered ids skipped; an unknown map fails only when an id is listed |
| WebPlugin.CapacitorGoogleMapsWeb.RemoveMarker | plugin/src/web.ts:349-354 | deletes the marker when registered, else nothing changes |
| WebPlugin.CapacitorGoogleMapsWeb.DeleteStrict | plugin/src/web.ts:378-381 | agrees with `StrictRemove`: deletes in order and stops at the first unregistered id |
| WebPlugin.CapacitorGoogleMapsWeb.RemoveShapes | plugin/src/web.ts:375-382 | the registry becomes `StrictRemove`'s remainder; an unregistered id is a `TypeError` after the ids before it were deleted |
| WebPlugin.CapacitorGoogleMapsWeb.RemovePolygons | plugin/src/web.ts:375-382 | `RemoveShapes` for polygons |
| WebPlugin.CapacitorGoogleMapsWeb.RemoveCircles | plugin/src/web.ts:403-410 | `RemoveShapes` for circles |
| WebPlugin.CapacitorGoogleMapsWeb.RemovePolylines | plugin/src/web.ts:434-441 | `RemoveShapes` for polylines |
| WebPlugin.CapacitorGoogleMapsWeb.AddTileOverlay | plugin/src/web.ts:267-289 | a fresh overlay for the URL and opacity, registered under `currTileOverlayId` (not registered before) and pushed on the overlay stack; that counter advances by one |
| WebPlugin.CapacitorGoogleMapsWeb.FindOverlay | plugin/src/web.ts:296-302 | the loop's stopping index is `IndexOfObject` of the stack |
| WebPlugin.CapacitorGoogleMapsWeb.RemoveTileOverlay | plugin/src/web.ts:291-304 | removes the first stack position holding the registered overlay and its registry entry; an unregistered id changes nothing; afterwards the id is never registered |
| WebPlugin.CapacitorGoogleMapsWeb.GetIdFromMap | plugin/src/web.ts:102-110 | returns a map id whose SDK map is the given one, or `""` exactly when none is |
| WebPlugin.CapacitorGoogleMapsWeb.GetIdFromMarker | plugin/src/web.ts:112-120 | returns an id under which the marker is registered, or `""` exactly when it is not |
| WebPlugin.CapacitorGoogleMapsWeb.GetMapType | plugin/src/web.ts:162-171 | the map type name converted from the SDK id, or `Map type is undefined` when the SDK reports none |
| WebPlugin.CapacitorGoogleMapsWeb.SetMapType | plugin/src/web.ts:173-179 | sets the SDK map type id to `ToSdkMapTypeId` of the name and changes nothing else |
| WebPlugin.CapacitorGoogleMapsWeb.EnableTrafficLayer | plugin/src/web.ts:185-195 | enabling keeps an existing layer or adds a fresh one; disabling removes it; nothing else changes |
| WebPlugin.CapacitorGoogleMapsWeb.RegisteredMarkers | plugin/src/web.ts:446-448 | one entry per registered marker, exactly the registered markers |
| WebPlugin.CapacitorGoogleMapsWeb.EnableClustering | plugin/src/web.ts:443-458 | a fresh clusterer over exactly the map's markers, with `minPoints` the given size or 4, replacing any previous one |
| WebPlugin.CapacitorGoogleMapsWeb.DisableClustering | plugin/src/web.ts:460-472 | the map's clusterer is dropped; nothing else changes |
| WebState.MapEntry.WithShapes | plugin/src/web.ts:38-60 | replaces one kind's registry and leaves the other registries, the overlays and the SDK handles as they were |
| WebState.MapEntry.PushOverlay | plugin/src/web.ts:282-284 | the registry gains the key and the overlay is appended to the stack; shape registries untouched |
| WebState.MapEntry.RemoveOverlay | plugin/src/web.ts:297-299 | drops the key and exactly stack position `i`; shape registries untouched |
| WebState.NewEntry | plugin/src/web.ts:497-505 | a new map entry has empty registries and an empty overlay stack |
| WebState.NotYetIssued | plugin/src/web.ts:313-319 | a counter value at or above the counter was never issued as an id |
| WebState.NextIdIsFresh | plugin/src/web.ts:313-319 | the counter's next id is not registered, and registering it keeps every id below the advanced counter |
| WebState.IdCounters.AddShapes | plugin/src/web.ts:61-66 | advances only that kind's counter, by the batch size |
| WebState.StateInitial | plugin/src/web.ts:38-66 | the empty plugin satisfies the registry invariant |
| WebState.StateInstall | plugin/src/web.ts:497-505 | installing an entry with empty registries keeps the invariant |
| WebState.StateDelete | plugin/src/web.ts:508-514 | deleting an entry keeps the invariant |
| WebState.StateExtendShapes | plugin/src/web.ts:306-323 | registering a batch of ids issued from the counter, then advancing it, keeps the invariant |
| WebState.StateIssueTile | plugin/src/web.ts:267-289 | the next tile-overlay id is unregistered, and pushing under it then advancing keeps the invariant |
| WebState.StateRemoveTile | plugin/src/web.ts:291-304 | removing an overlay from the registry and the stack keeps the invariant |
| WebState.IdRange | plugin/src/web.ts:313-319 | the ids of a batch are the counter values from its start, in order |
| WebState.IdRangeDistinct | plugin/src/web.ts:313-319 | the ids of one batch are pairwise distinct |
| WebState.BatchesDisjoint | plugin/src/web.ts:306-323 | batches from non-overlapping counter ranges share no id |
| WebState.NextBatchIsFresh | plugin/src/web.ts:306-323 | no id of the next batch is registered in any map |
| WebState.RegisteredContents | plugin/src/web.ts:309-320 | after the loop, the registry holds the old keys with their old objects plus the batch ids, each bound to its object |
| WebState.BatchRegistered | plugin/src/web.ts:309-320 | each batch id is bound to the object built from its item |
| WebState.StrictRemove | plugin/src/web.ts:375-382 | the remainder is a sub-registry with the same values and keeps every unlisted id |
| WebState.StrictRemoveCompletes | plugin/src/web.ts:375-382 | the removal completes exactly when the ids are distinct and all registered, and then removes exactly them |
| WebSdk.ImageMapType.constructor | plugin/src/web.ts:273-280 | the overlay keeps the URL template and opacity; tiles are 256 pixels |
| WebSdk.TileUrlOfZxyTemplate | plugin/src/web.ts:275-277 | for a template with `{z}`, `{x}`, `{y}` once each, the tile URL substitutes the three coordinates |
| WebSdk.TileUrl | plugin/src/web.ts:275-277 | the `replace` chain of `getTileUrl`: a template without `{` is served unchanged for every tile; `TileUrlOfZxyTemplate` gives the substitution for a template with each placeholder once |
| WebSdk.ImageMapType.GetTileUrl | plugin/src/web.ts:275-277 | the tile URL is built from the overlay's own template, unchanged when the template has no placeholder |
| Text.ReplaceFirst | plugin/src/web.ts:276 | `String.replace` with a string pattern: only the first occurrence is replaced; without one the text is unchanged |
| Text.Decimal | plugin/src/web.ts:272 | `'' + counter` on a counter: a non-empty string of digits with no leading zero unless the counter is 0; `ParseDecimalOfDecimal` reads it back |
| Text.DecimalInjective | plugin/src/web.ts:313 | `'' + counter` gives different ids for different counter values |
| Text.ParseDecimalOfDecimal | plugin/src/web.ts:313 | the id text reads back as the counter value |
| MapTypes.ToSdkMapTypeId | plugin/src/web.ts:173-179 | `Normal` becomes `roadmap`; any other name comes out with the same length and no upper-case letter |
| MapTypes.FromSdkMapTypeId | plugin/src/web.ts:162-171 | `roadmap` becomes `Normal`; any other id has its first letter upper-cased |
| MapTypes.MapTypeNamed | plugin/src/definitions.ts:328-349 | a name denotes a `MapType` exactly when it is that member's enum value |
| MapTypes.SetThenGetRoundTrip | plugin/src/web.ts:162-179 | setting a capitalised one-word type name and reading it back returns the same name |
| MapTypes.MapTypeRoundTrip | plugin/src/definitions.ts:328-349 | every `MapType` survives `setMapType` then `getMapType` |
| GoogleMapFacade.EventNameInjective | plugin/dist/esm/map.js:496-760 | each of the 16 listener slots subscribes to a different plugin event |
| GoogleMapFacade.Position | plugin/dist/esm/map.js:767-832 | every slot has a position in the removal order |
| GoogleMapFacade.RemovalOrderVisitsEverySlotOnce | plugin/dist/esm/map.js:767-832 | `removeAllMapListeners` visits every slot, and none twice |
| GoogleMapFacade.FilteredCallback.Deliver | plugin/dist/esm/map.js:833-840 | the user callback runs with the event data exactly when the data's `mapId` is this map's id |
| GoogleMapFacade.ForwardedToOneMapAtMost | plugin/dist/esm/map.js:833-840 | one event is forwarded to at most one map |
| GoogleMapFacade.RemovalCallsCount | plugin/dist/esm/map.js:767-832 | visiting an order removes each visited slot's handle once and makes no other call |
| GoogleMapFacade.RemoveAllRemovesEachOnce | plugin/dist/esm/map.js:767-832 | removing all listeners removes every registered handle exactly once and nothing else |
| GoogleMapFacade.GoogleMap.constructor | plugin/dist/esm/map.js:21-26 | a new facade has no listeners and has made no bridge calls |
| GoogleMapFacade.GoogleMap.SetListener | plugin/dist/esm/map.js:496-505 | the old handle of that slot is removed; a callback installs a fresh filtered listener; no callback leaves the slot empty |
| GoogleMapFacade.GoogleMap.RemoveInOrder | plugin/dist/esm/map.js:767-832 | removing the slots of an order without repeats empties exactly those slots, keeps the others unchanged and issues one removal call per set slot, in that order |
| GoogleMapFacade.GoogleMap.RemoveAllMapListeners | plugin/dist/esm/map.js:767-832 | all slots end empty, and the bridge calls are those `RemovalCalls` gives for the old slots in source order |
| GoogleMapFacade.GoogleMap.Destroy | plugin/dist/esm/map.js:303-315 | removes all listeners, then asks the native side to destroy this id |
| GoogleMapFacade.MapReadyListener.constructor | plugin/dist/esm/map.js:127-134 | the listener starts subscribed, with nothing delivered |
| GoogleMapFacade.MapReadyListener.OnEvent | plugin/dist/esm/map.js:127-134 | only the first `onMapReady` for this map's id reaches the callback; then the listener is removed |
| GoogleMapFacade.ResizeStep | plugin/dist/esm/map.js:94-110 | the element is hidden exactly at zero width and height; `onDisplay` fires exactly on a reveal when enabled; `onResize` fires exactly on a size change of a visible element that was visible before |
| GoogleMapFacade.ResizeStepRepeat | plugin/dist/esm/map.js:94-110 | observing the same size twice reports nothing the second time |
| GoogleMapFacade.ResizeStepReveal | plugin/dist/esm/map.js:94-110 | a reveal never reports a resize; a hidden element reports nothing |
| GoogleMapFacade.ResizeObserver.constructor | plugin/dist/esm/map.js:89-93 | the last state starts at the element bounds, not hidden |
| GoogleMapFacade.ResizeObserver.Observe | plugin/dist/esm/map.js:94-112 | the new last state and the report are `ResizeStep`'s |
| GoogleMapFacade.PrepareCreate | plugin/dist/esm/map.js:33-48 | fails with `container element is required` exactly without an element; otherwise sets `androidLiteMode` (default false), the element bounds and the device pixel ratio |
| GoogleMapFacade.PrepareCreateKeepsLiteMode | plugin/dist/esm/map.js:38-40 | a given `androidLiteMode` is kept as is |
| IosMapConfig.MissingPropertyInjective | plugin/ios/Sources/CapacitorGoogleMapsPlugin/GoogleMapConfig.swift:14-40 | different keys give different messages, none equal to the `LatLng` message |
| IosMapConfig.FirstUnsupplied | plugin/ios/Sources/CapacitorGoogleMapsPlugin/GoogleMapConfig.swift:14-36 | the position of the first required key missing or of the wrong type; every earlier key is supplied; none exactly when all are |
| IosMapConfig.Round | plugin/ios/Sources/CapacitorGoogleMapsPlugin/GoogleMapConfig.swift:42-43 | within one half of the input, halves rounded away from zero |
| IosMapConfig.OrderBounds | plugin/ios/Sources/CapacitorGoogleMapsPlugin/GoogleMapConfig.swift:50-54 | the result is ordered when both bounds are given, is a permutation of the input, and is the input when either bound is missing |
| IosMapConfig.EffectiveZoom | plugin/ios/Sources/CapacitorGoogleMapsPlugin/GoogleMapConfig.swift:50-62 | with both bounds, the zoom lies between them and is unchanged when already inside; with one bound it is capped or floored; with none it is unchanged |
| IosMapConfig.EffectiveZoomIdempotent | plugin/ios/Sources/CapacitorGoogleMapsPlugin/GoogleMapConfig.swift:50-62 | clamping a clamped zoom changes nothing |
| IosMapConfig.ParseConfig | plugin/ios/Sources/CapacitorGoogleMapsPlugin/GoogleMapConfig.swift:13-63 | succeeds exactly when every required key is supplied and the center has numeric `lat`/`lng`; then width and height are rounded, x, y and center copied, the zoom clamped, and `mapId` read from `iOSMapId` |
| IosMapConfig.ParseConfigFailures | plugin/ios/Sources/CapacitorGoogleMapsPlugin/GoogleMapConfig.swift:14-40 | the error names the first unsupplied key, or is the `LatLng` message when only the center is incomplete |
| IosMapConfig.ReportsFirstMissingKey | plugin/ios/Sources/CapacitorGoogleMapsPlugin/GoogleMapConfig.swift:14-36 | a key is reported exactly when every earlier key is supplied and it is not |
| IosMapConfig.InvertedBoundsAreSwapped | plugin/ios/Sources/CapacitorGoogleMapsPlugin/GoogleMapConfig.swift:50-54 | inverted bounds clamp as the ordered range |
| AndroidMapConfig.FirstAbsent | plugin/android/src/main/java/com/capacitorjs/plugins/googlemaps/GoogleMapConfig.kt:28-66 | the position of the first required key `has` rejects; every earlier key is present; none exactly when all are |
| AndroidMapConfig.ParseRestriction | plugin/android/src/main/java/com/capacitorjs/plugins/googlemaps/GoogleMapConfig.kt:126-166 | a missing `latLngBounds` is reported first; on success every corner key is a number, south-west is (south, west) and north-east is (north, east) |
| AndroidMapConfig.RestrictionReportsFirstAbsent | plugin/android/src/main/java/com/capacitorjs/plugins/googlemaps/GoogleMapConfig.kt:137-156 | a bounds object lacking a key is reported for the first one absent in the order north, south, east, west |
| AndroidMapConfig.RestrictionCorners | plugin/android/src/main/java/com/capacitorjs/plugins/googlemaps/GoogleMapConfig.kt:157-165 | when `latLngBounds` is an object whose four keys are numbers, the restriction parses and spans from its south-west (south, west) to its north-east (north, east) corner |
| AndroidMapConfig.Clamp | plugin/android/src/main/java/com/capacitorjs/plugins/googlemaps/GoogleMapConfig.kt:93-99 | with an ordered range the zoom lies in it and is unchanged inside it; with an inverted range the result is one of the two bounds |
| AndroidMapConfig.ClampAgreesWithIos | plugin/android/src/main/java/com/capacitorjs/plugins/googlemaps/GoogleMapConfig.kt:85-99 | with `minZoom <= maxZoom` Android and iOS start at the same zoom |
| AndroidMapConfig.InvertedRangeDiverges | plugin/android/src/main/java/com/capacitorjs/plugins/googlemaps/GoogleMapConfig.kt:88-90 | the swap guard tests the field `maxZoom`, still `null`, so an inverted range is not swapped: zoom 7 with min 10 and max 5 gives 5 on Android and 7 on iOS |
| AndroidMapConfig.CheckConfig | plugin/android/src/main/java/com/capacitorjs/plugins/googlemaps/GoogleMapConfig.kt:28-74 | a config lacking a required key fails; on success every required key is present, the center is an object with `lat` and `lng`, and the pixel ratio is the given number or 1 |
| AndroidMapConfig.ReadLiteMode | plugin/android/src/main/java/com/capacitorjs/plugins/googlemaps/GoogleMapConfig.kt:76-78 | lite mode is on exactly when `androidLiteMode` is present and reads true; a present value `getBoolean` rejects fails |
| AndroidMapConfig.ReadFrame | plugin/android/src/main/java/com/capacitorjs/plugins/googlemaps/GoogleMapConfig.kt:80-83 | succeeds exactly when width, height, x and y are numbers, which are truncated toward zero |
| AndroidMapConfig.ReadZoom | plugin/android/src/main/java/com/capacitorjs/plugins/googlemaps/GoogleMapConfig.kt:85-87 | the zoom is the truncated number; each bound is `getInt` of its key when present and `null` when absent |
| AndroidMapConfig.ReadRestriction | plugin/android/src/main/java/com/capacitorjs/plugins/googlemaps/GoogleMapConfig.kt:113-115 | a restriction is parsed exactly when the key is present, with `ParseRestriction`'s result or error |
| AndroidMapConfig.ReadPlace | plugin/android/src/main/java/com/capacitorjs/plugins/googlemaps/GoogleMapConfig.kt:101-105 | `mapTypeId` is `getString` of the key when present and `null` when absent; the center is the numeric `lat` and `lng` |
| AndroidMapConfig.ReadDetails | plugin/android/src/main/java/com/capacitorjs/plugins/googlemaps/GoogleMapConfig.kt:109-117 | `styles`, `androidMapId` and `heading` are their accessor's value when present and `null` when absent; the restriction is `ReadRestriction`'s |
| AndroidMapConfig.ParseConfig | plugin/android/src/main/java/com/capacitorjs/plugins/googlemaps/GoogleMapConfig.kt:27-123 | the initialiser's reads in source order: a config lacking a required key fails, and a parsed config holds a restriction exactly when `has("restriction")`; `ParsedConfig` states the value of every field |
| AndroidMapConfig.ParsedConfig | plugin/android/src/main/java/com/capacitorjs/plugins/googlemaps/GoogleMapConfig.kt:27-123 | a parsed config has every required key, frame values truncated, the pixel ratio given or 1, lite mode as read, the center's `lat` and `lng`, the zoom clamped into the bounds as read, each bound, `mapTypeId`, `styles`, `androidMapId` and `heading` read when present and `null` otherwise, and the restriction `ReadRestriction` gives |
| AndroidMapConfig.ReportsFirstAbsentKey | plugin/android/src/main/java/com/capacitorjs/plugins/googlemaps/GoogleMapConfig.kt:28-74 | a config lacking a required key is rejected for the first one absent, unless a malformed pixel ratio, read just before `center`, fails first |
| AndroidMapConfig.BoundsNeverSwapped | plugin/android/src/main/java/com/capacitorjs/plugins/googlemaps/GoogleMapConfig.kt:88-92 | the stored bounds are the bounds as read, even when inverted |
| AndroidMapConfig.GoogleMapConfig.constructor | plugin/android/src/main/java/com/capacitorjs/plugins/googlemaps/GoogleMapConfig.kt:10-25 | the fields start at their declared defaults |
| AndroidMapConfig.GoogleMapConfig.Init | plugin/android/src/main/java/com/capacitorjs/plugins/googlemaps/GoogleMapConfig.kt:27-123 | the initialiser succeeds exactly when `ParseConfig` does and leaves the fields `ParseConfig` gives, or throws its error |
| AndroidMapConfig.GoogleMapConfig.CheckKeys | plugin/android/src/main/java/com/capacitorjs/plugins/googlemaps/GoogleMapConfig.kt:28-74 | succeeds or fails as `CheckConfig` and returns its center object |
| AndroidMapConfig.GoogleMapConfig.ReadLiteModeField | plugin/android/src/main/java/com/capacitorjs/plugins/googlemaps/GoogleMapConfig.kt:76-78 | sets only `liteMode`, to `ReadLiteMode`'s value |
| AndroidMapConfig.GoogleMapConfig.ReadFrameFields | plugin/android/src/main/java/com/capacitorjs/plugins/googlemaps/GoogleMapConfig.kt:80-83 | sets only width, height, x and y, to `ReadFrame`'s values |
| AndroidMapConfig.GoogleMapConfig.ReadZoomFields | plugin/android/src/main/java/com/capacitorjs/plugins/googlemaps/GoogleMapConfig.kt:85-99 | sets only the zoom, to the clamped value, and the bounds as read |
| AndroidMapConfig.GoogleMapConfig.ReadRestrictionField | plugin/android/src/main/java/com/capacitorjs/plugins/googlemaps/GoogleMapConfig.kt:113-115 | sets only `restriction`, to `ReadRestriction`'s value |
| AndroidMapConfig.GoogleMapConfig.ReadPlaceFields | plugin/android/src/main/java/com/capacitorjs/plugins/googlemaps/GoogleMapConfig.kt:101-105 | sets only `mapTypeId` and `center`, to `ReadPlace`'s values |
| AndroidMapConfig.GoogleMapConfig.ReadDetailFields | plugin/android/src/main/java/com/capacitorjs/plugins/googlemaps/GoogleMapConfig.kt:109-117 | sets only styles, map id, restriction and heading, to `ReadDetails`'s values |
| IosTileOverlay.ZIndex | plugin/ios/Sources/CapacitorGoogleMapsPlugin/TileOverlay.swift:16 | the `zIndex` as a whole number, 0 when absent or not whole; a value outside `Int32` traps |
| IosTileOverlay.ParseTileOverlay | plugin/ios/Sources/CapacitorGoogleMapsPlugin/TileOverlay.swift:9-17 | fails with the `url` message exactly when `url` is not a string; otherwise opacity from `opacity`, visibility from `isFlat`, and `ZIndex`'s value |
| IosTileOverlay.Defaults | plugin/ios/Sources/CapacitorGoogleMapsPlugin/TileOverlay.swift:13-16 | with a `url` and the optional keys absent or of another type: no opacity, no visibility and z-index 0 |
| IosTileOverlay.VisibleKeyIgnored | plugin/ios/Sources/CapacitorGoogleMapsPlugin/TileOverlay.swift:15 | visibility is read from `isFlat`, so a `visible` key changes nothing |
| IosLegacyTileOverlay.ParseTileOverlay | plugin/ios/Plugin/TileOverlay.swift:9-17 | fails with the `getTileCallbackId` message exactly when that key is not a string; the other fields are read as in the current target |
| IosLegacyTileOverlay.AgreesWithCurrentTarget | plugin/ios/Plugin/TileOverlay.swift:13-16 | given a callback id, the two targets succeed together and read the same opacity, visibility and z-index |
| AndroidTileOverlay.ParseTileOverlay | plugin/android/src/main/java/com/capacitorjs/plugins/googlemaps/CapacitorGoogleMapTileOverlay.kt:13-27 | the `has` check reports a missing callback id; a non-string one is a `JSONException`; each optional field is set exactly when its key is present, the z-index a whole number |
| AndroidTileOverlay.MalformedOptionalsFallBack | plugin/android/src/main/java/com/capacitorjs/plugins/googlemaps/CapacitorGoogleMapTileOverlay.kt:18-26 | with a string callback id the overlay always parses; a present opacity or z-index that is not a number falls back to not-a-number or 0, a visibility that is neither `true` nor text to false |
| AndroidTileOverlay.CapacitorGoogleMapTileOverlay.constructor | plugin/android/src/main/java/com/capacitorjs/plugins/googlemaps/CapacitorGoogleMapTileOverlay.kt:7-11 | the optional fields and the SDK overlay start `null` |
| AndroidTileOverlay.CapacitorGoogleMapTileOverlay.ReadOptionalFields | plugin/android/src/main/java/com/capacitorjs/plugins/googlemaps/CapacitorGoogleMapTileOverlay.kt:18-26 | each optional field is overwritten through its `opt*` accessor exactly when its key is present; nothing else changes |
| AndroidTileOverlay.NewTileOverlay | plugin/android/src/main/java/com/capacitorjs/plugins/googlemaps/CapacitorGoogleMapTileOverlay.kt:6-28 | builds a fresh overlay whose fields are `ParseTileOverlay`'s, or fails with its error |

## Left out

- SDK side effects are not modelled: `setMap(null)` on removed shapes, `unbindAll`, clearing the element, and re-attaching markers when clustering is disabled (plugin/src/web.ts:341-346, 460-472, 508-514). Only the registries and the plugin's own fields are.
- `WebPlugin.CapacitorGoogleMapsWeb.AddShapes` stores the registry once, after the loop. The source writes it item by item, across `await`s (plugin/src/web.ts:306-323). The end state is the same; interleaving with other calls is not modelled.
- Concurrency: every method runs to completion without interleaving.
- `for...in` order over the registries is left open: `GetIdFromMap`, `GetIdFromMarker` and `RegisteredMarkers` pick keys in any order. Only the set of markers a clusterer receives is stated, not their order.
- Object prototype keys (`toString`, `__proto__`) behave as ordinary missing keys.
- The loose comparison `data.mapId == id` in the event filter is modelled as string equality (plugin/dist/esm/map.js:836).
- `create` on the web writes into a copy of the config (plugin/src/web.ts:490). The facade's `create` writes into the caller's config, and `PrepareCreate` returns that new config rather than mutating the argument.
- `WebPlugin.CapacitorGoogleMapsWeb.EnableClustering` does not detach a clusterer it replaces; neither does the source.
- Loading the Google Maps library, the marker and listener builders (`buildMarkerOpts`, `set*Listeners`, `setMapListeners`), camera, padding, bounds arithmetic and geolocation are not modelled. Nor are the touch and visibility toggles, which only forward to the SDK or the DOM.
- In the facade, the DOM, timers, scrolling, the `getElementBounds` retry and the bridge's own behaviour are out of scope. The resize observer's element-null check and the Ionic page lookup are reduced to the `displayOnReveal` flag. The 200 ms delay before the native `create` is not modelled.
- The facade's forwarders that only call the bridge (markers, camera, shapes and so on in plugin/dist/esm/map.js) are not modelled. Nor are the bundled copies plugin/dist/plugin.js and plugin/dist/esm/web.js, which repeat the modelled code.
- Swift `as? Double`, `as? Int` and `as? Float` on bridged `NSNumber`s are modelled as plain type tests. `Float` narrowing of the iOS opacity is not modelled, nor is the Kotlin `toFloat` of the pixel ratio, the opacity and the z-index.
- Integer widths: only the `Int32` z-index conversion on iOS is modelled. Java `int` and `long` overflow in `getInt` and `optLong` is not.
- `org.json` coercions are modelled only in part. `getBoolean` and `optBoolean` accept the text "true"/"false" in any letter case. Numeric strings are not parsed as numbers, and `getString` does not turn non-strings into text.
- `AndroidMapConfig.Optional`: an absent `minZoom`, `maxZoom`, `mapTypeId`, `styles`, `androidMapId` or `heading` is read as `null`. This is an assumption of the model, not something the source shows. `getInt` and `getDouble` (plugin/android/src/main/java/com/capacitorjs/plugins/googlemaps/GoogleMapConfig.kt:85-87, 116) return a non-null `Int` or `Double`, so in the source they cannot yield `null`; for `getString` the result on a missing key depends on the receiver's class, which is not part of this model. A present value the accessor rejects raises `JSONException`.
- `AndroidMapConfig.ParseRestriction`, `AndroidMapConfig.RestrictionCorners`, `AndroidMapConfig.ReadPlace` and `AndroidMapConfig.ParsedConfig` use plain coordinate records in place of the SDK's `LatLng` and `LatLngBounds` (plugin/android/src/main/java/com/capacitorjs/plugins/googlemaps/GoogleMapConfig.kt:103-105, 162-165). The SDK's `LatLng` clamps the latitude to [-90, 90] and wraps the longitude into [-180, 180); the model stores both as read. The SDK's `LatLngBounds` throws `IllegalArgumentException` when the south latitude exceeds the north one; the model accepts such bounds, so `RestrictionCorners` promises success where the source throws. That library code is not part of this model.
- `GoogleMapOptions` and `CameraPosition` (plugin/android/src/main/java/com/capacitorjs/plugins/googlemaps/GoogleMapConfig.kt:107, 119-122) are SDK objects and are not modelled.
- `AndroidMapConfig.ReadZoom`: the one-sided zoom clamp (only one of `minZoom` and `maxZoom` given, each bound applied on its own) follows from the absent-as-`null` assumption above, not from the source. In the source the `_minZoom != null` and `_maxZoom != null` tests (GoogleMapConfig.kt:88, 93, 95) are always true.
- `Text.LowerChar`, `Text.UpperChar` and `Text.ToLowerCase` map only ASCII letters. JavaScript's `toLowerCase` and `toUpperCase` (plugin/src/web.ts:164-178) use full Unicode case mapping. So `MapTypes.ToSdkMapTypeId`, `MapTypes.FromSdkMapTypeId` and `MapTypes.SetThenGetRoundTrip` do not describe the source on non-ASCII map type names: the source maps "É" to "é" and upper-cases "ß" to "SS".
- `WebState.NextIdIsFresh`, `WebState.IdRangeDistinct`, `WebState.NextBatchIsFresh`, `WebState.BatchesDisjoint` and the add methods of `WebPlugin.CapacitorGoogleMapsWeb` count ids with an unbounded `nat`. The source's `curr*Id` counters are JavaScript numbers, and `++` stops changing them at 2^53, after which ids repeat. The freshness results hold only below that bound.
