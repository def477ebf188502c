/**
 * The conditional casts the iOS parsers apply to the values of a `JSObject`:
 * each yields `nil` when the key is absent or the value has another type.
 * `as? Double`, `as? String` and `as? JSObject` are the plain type tests
 * `NumberAt`, `StringAt` and `ObjectAt` of the `Json` module, shared with
 * `org.json`; only the casts that differ from it are defined here.
 */
module SwiftJson {
  import opened Wrappers
  import opened Json

  /** `o[key] as? Int`: only a whole number converts. */
  function AsInt(o: Object, key: string): (r: Option<int>)
    ensures r.Some? <==> key in o && o[key].JNum? && IsIntegral(o[key].n)
    ensures r.Some? ==> o[key] == JNum(r.value as real)
  {
    match Get(o, key)
    case Some(JNum(n)) => if IsIntegral(n) then Some(n.Floor) else None
    case _ => None
  }

  /** `o[key] as? Bool` */
  function AsBool(o: Object, key: string): (r: Option<bool>)
    ensures r.Some? <==> key in o && o[key].JBool?
    ensures r.Some? ==> o[key] == JBool(r.value)
  {
    match Get(o, key)
    case Some(JBool(b)) => Some(b)
    case _ => None
  }

  /** The range of Swift's `Int32`. */
  predicate InInt32(i: int)
  {
    -0x8000_0000 <= i < 0x8000_0000
  }
}
