/**
 * The `org.json.JSONObject` accessors the Android parsers call. The `get*`
 * accessors throw `JSONException` when the key is absent or its value
 * cannot be coerced (modelled as `None`); the `opt*` accessors fall back
 * to a default instead. `getDouble`, `getString` and `getJSONObject` are the
 * plain type tests `NumberAt`, `StringAt` and `ObjectAt` of the `Json` module.
 */
module OrgJson {
  import opened Wrappers
  import opened Json
  import Text

  /** `has(key)`: the key is present, even when its value is `null`. */
  predicate Has(o: Object, key: string)
  {
    key in o
  }

  /** A Java narrowing of a double to an integer: the fraction is dropped, toward zero. */
  function TruncateTowardZero(x: real): (r: int)
    ensures x >= 0.0 ==> 0 <= r && r as real <= x < r as real + 1.0
    ensures x < 0.0 ==> r <= 0 && r as real - 1.0 < x <= r as real
  {
    if x >= 0.0 then x.Floor else -((-x).Floor)
  }

  /** `getInt(key)` */
  function GetInt(o: Object, key: string): (r: Option<int>)
    ensures r.Some? <==> key in o && o[key].JNum?
    ensures r.Some? ==> r.value == TruncateTowardZero(o[key].n)
  {
    match Get(o, key)
    case Some(JNum(n)) => Some(TruncateTowardZero(n))
    case _ => None
  }

  /** `getBoolean(key)`: a boolean, or the text "true" or "false" in any letter case. */
  function GetBoolean(o: Object, key: string): (r: Option<bool>)
    ensures key in o && o[key].JBool? ==> r == Some(o[key].b)
    ensures key !in o ==> r.None?
    ensures r == Some(true) ==> o[key] == JBool(true) || (o[key].JStr? && Text.ToLowerCase(o[key].s) == "true")
  {
    match Get(o, key)
    case Some(JBool(b)) => Some(b)
    case Some(JStr(s)) =>
      var lower := Text.ToLowerCase(s);
      if lower == "true" then Some(true) else if lower == "false" then Some(false) else None
    case _ => None
  }

  /** A double that may be Java's not-a-number. */
  datatype JavaDouble = Finite(value: real) | NaN

  /** `optDouble(key)`: not-a-number when the value is not a number. */
  function OptDouble(o: Object, key: string): (r: JavaDouble)
    ensures r.Finite? <==> key in o && o[key].JNum?
    ensures r.Finite? ==> o[key] == JNum(r.value)
  {
    match Get(o, key)
    case Some(JNum(n)) => Finite(n)
    case _ => NaN
  }

  /** `optBoolean(key)`: `false` unless the value is `true` or the text "true" in any letter case. */
  function OptBoolean(o: Object, key: string): (r: bool)
    ensures r <==> key in o && (o[key] == JBool(true) || (o[key].JStr? && Text.ToLowerCase(o[key].s) == "true"))
  {
    match Get(o, key)
    case Some(JBool(b)) => b
    case Some(JStr(s)) => Text.ToLowerCase(s) == "true"
    case _ => false
  }

  /** `optLong(key)`: 0 unless the value is a number, which is truncated. */
  function OptLong(o: Object, key: string): (r: int)
    ensures key in o && o[key].JNum? ==> r == TruncateTowardZero(o[key].n)
    ensures !(key in o && o[key].JNum?) ==> r == 0
  {
    match Get(o, key)
    case Some(JNum(n)) => TruncateTowardZero(n)
    case _ => 0
  }
}
