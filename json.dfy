/**
 * The JSON-like values that cross the bridge: the argument objects handed to
 * the native parsers (a `JSObject` on iOS, an `org.json.JSONObject` on
 * Android) and the option bags handed to the web plugin.
 * JavaScript numbers and native doubles are modelled as reals: only
 * comparisons, truncation and rounding are applied to them.
 */
module Json {
  import opened Wrappers

  datatype Json =
    | JNull
    | JBool(b: bool)
    | JNum(n: real)
    | JStr(s: string)
    | JArr(items: seq<Json>)
    | JObj(fields: map<string, Json>)

  type Object = map<string, Json>

  /** The value stored under `key`, `None` when the key is absent. */
  function Get(o: Object, key: string): Option<Json>
  {
    if key in o then Some(o[key]) else None
  }

  /** The number under `key`: Swift `as? Double`, `org.json` `getDouble`. */
  function NumberAt(o: Object, key: string): (r: Option<real>)
    ensures r.Some? <==> key in o && o[key].JNum?
    ensures r.Some? ==> o[key] == JNum(r.value)
  {
    match Get(o, key)
    case Some(JNum(n)) => Some(n)
    case _ => None
  }

  /** The text under `key`: Swift `as? String`, `org.json` `getString`. */
  function StringAt(o: Object, key: string): (r: Option<string>)
    ensures r.Some? <==> key in o && o[key].JStr?
    ensures r.Some? ==> o[key] == JStr(r.value)
  {
    match Get(o, key)
    case Some(JStr(s)) => Some(s)
    case _ => None
  }

  /** The nested object under `key`: Swift `as? JSObject`, `org.json` `getJSONObject`. */
  function ObjectAt(o: Object, key: string): (r: Option<Object>)
    ensures r.Some? <==> key in o && o[key].JObj?
    ensures r.Some? ==> o[key] == JObj(r.value)
  {
    match Get(o, key)
    case Some(JObj(f)) => Some(f)
    case _ => None
  }

  /** True when `x` is a whole number. */
  predicate IsIntegral(x: real)
  {
    x.Floor as real == x
  }
}
