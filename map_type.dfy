/**
 * The map tile types and the web plugin's conversion between their names
 * and the identifiers of the Google Maps JavaScript SDK
 * (`setMapType` lower-cases, `getMapType` capitalises), plus the facade's
 * lookup of a name in the `MapType` enum.
 */
module MapTypes {
  import Wrappers
  import opened Text

  /** The `MapType` enum; each member's string value is its own name. */
  datatype MapType = Normal | Hybrid | Satellite | Terrain | None

  function Name(t: MapType): string
  {
    match t
    case Normal => "Normal"
    case Hybrid => "Hybrid"
    case Satellite => "Satellite"
    case Terrain => "Terrain"
    case None => "None"
  }

  /**
   * `setMapType`: the SDK map type id for a requested name. Every name is
   * lower-cased, except that `Normal` becomes the SDK's `roadmap`.
   */
  function ToSdkMapTypeId(name: string): (id: string)
    ensures name == "Normal" ==> id == "roadmap"
    ensures name != "Normal" ==> |id| == |name| && forall i | 0 <= i < |id| :: !IsUpperAscii(id[i])
  {
    if name == Name(Normal) then "roadmap" else ToLowerCase(name)
  }

  /**
   * `getMapType`: the name reported for the SDK's current map type id;
   * `roadmap` reads as `Normal`, any other id has its first character
   * upper-cased.
   */
  function FromSdkMapTypeId(id: string): (name: string)
    ensures id == "roadmap" ==> name == "Normal"
    ensures id == "" ==> name == ""
    ensures id != "roadmap" && id != "" ==> |name| == |id| && name[0] == UpperChar(id[0]) && name[1..] == id[1..]
  {
    CapitalizeFirst(if id == "roadmap" then Name(Normal) else id)
  }

  /** `MapType[type]` in the facade: the enum member with that name, if any. */
  function MapTypeNamed(s: string): (r: Wrappers.Option<MapType>)
    ensures forall t :: r == Wrappers.Some(t) <==> Name(t) == s
  {
    if s == "Normal" then Wrappers.Some(Normal)
    else if s == "Hybrid" then Wrappers.Some(Hybrid)
    else if s == "Satellite" then Wrappers.Some(Satellite)
    else if s == "Terrain" then Wrappers.Some(Terrain)
    else if s == "None" then Wrappers.Some(None)
    else
      assert forall t :: Name(t) != s;
      Wrappers.None
  }

  /** A name in the shape the SDK round-trips: a capital, then no capitals. */
  predicate IsCapitalisedWord(s: string)
  {
    |s| >= 1 && IsUpperAscii(s[0]) && forall i | 1 <= i < |s| :: !IsUpperAscii(s[i])
  }

  /**
   * Reading back what was set gives the same name, for any capitalised
   * name other than one that lower-cases to `roadmap`.
   */
  lemma {:induction false} SetThenGetRoundTrip(s: string)
    requires IsCapitalisedWord(s)
    requires s == "Normal" || ToLowerCase(s) != "roadmap"
    ensures FromSdkMapTypeId(ToSdkMapTypeId(s)) == s
  {
    if s != "Normal" {
      var id := ToLowerCase(s);
      LowerCaseOfLower(s[1..]);
      assert id == [LowerChar(s[0])] + ToLowerCase(s[1..]);
      assert UpperChar(LowerChar(s[0])) == s[0];
    }
  }

  /** get-after-set returns the enum member that was set, for all five. */
  lemma MapTypeRoundTrip(t: MapType)
    ensures FromSdkMapTypeId(ToSdkMapTypeId(Name(t))) == Name(t)
    ensures MapTypeNamed(FromSdkMapTypeId(ToSdkMapTypeId(Name(t)))) == Wrappers.Some(t)
  {
    var s := Name(t);
    assert IsCapitalisedWord(s);
    if t != Normal {
      assert ToLowerCase(s)[0] == LowerChar(s[0]) != 'r';
    }
    SetThenGetRoundTrip(s);
  }
}
