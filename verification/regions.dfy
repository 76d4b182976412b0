/** The region dataset the area picker walks: provinces holding cities
    holding areas, each with a display name and a six-digit code. Only the
    province's label rule is visible; the city and area labels are supplied
    to the picker as opaque functions. */
module Regions {

  datatype Area = Area(name: string, code: string)

  datatype City = City(name: string, code: string, areas: seq<Area>)

  datatype Province = Province(name: string, code: string, cities: seq<City>)

  /** The longest label a province column shows. */
  const ShortNameLength := 6

  /** `getShortName`: the name cut to its first six characters when longer,
      otherwise the whole name. */
  function ShortName(name: string): (r: string)
    ensures |r| <= ShortNameLength
    ensures r <= name
    ensures |r| == if |name| <= ShortNameLength then |name| else ShortNameLength
  {
    if |name| > ShortNameLength then name[..ShortNameLength] else name
  }

  /** A name that already fits is its own label, and in particular
      shortening a label again changes nothing. */
  lemma ShortNameIdempotent(name: string)
    ensures |name| <= ShortNameLength ==> ShortName(name) == name
    ensures ShortName(ShortName(name)) == ShortName(name)
  {
  }

  /** Two names agreeing on their first six characters get the same label. */
  lemma ShortNameSharedPrefix(a: string, b: string)
    requires |a| > ShortNameLength && |b| > ShortNameLength
    requires a[..ShortNameLength] == b[..ShortNameLength]
    ensures ShortName(a) == ShortName(b)
  {
  }

  /** `getName`: the one name whose setting leaves the province as it is. */
  function GetName(p: Province): (r: string)
    ensures forall name :: p.(name := name) == p <==> name == r
  {
    p.name
  }

  /** `setName` replaces the name and leaves code and cities alone. */
  function SetName(p: Province, name: string): (r: Province)
    ensures GetName(r) == name
    ensures GetCity(r) == GetCity(p) && r.code == p.code
  {
    p.(name := name)
  }

  /** `getCity`: the one city list whose setting leaves the province as it
      is. */
  function GetCity(p: Province): (r: seq<City>)
    ensures forall cities :: p.(cities := cities) == p <==> cities == r
  {
    p.cities
  }

  /** `setCity` replaces the city list and leaves name and code alone. */
  function SetCity(p: Province, cities: seq<City>): (r: Province)
    ensures GetCity(r) == cities
    ensures GetName(r) == GetName(p) && r.code == p.code
  {
    p.(cities := cities)
  }

  /** Setting a field back to the value it had is no change at all, and the
      two setters commute. */
  lemma SettersIndependent(p: Province, name: string, cities: seq<City>)
    ensures SetName(p, GetName(p)) == p && SetCity(p, GetCity(p)) == p
    ensures SetName(SetCity(p, cities), name) == SetCity(SetName(p, name), cities)
  {
  }
}
