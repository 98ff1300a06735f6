/** The entities the pages pass around (src/types.ts), and the two JavaScript
    "falsy" fallbacks the mappings use on nullable string columns. */
module Types {

  /** JavaScript's `null` and `undefined` are both `None`. */
  datatype Option<+T> = None | Some(value: T)

  /** The `moroccan_city` enumeration of the database schema. */
  datatype City = Casablanca | FES | RABAT | AGADIR | MARRAKECH

  /** The spelling under which a city is stored and shown. */
  function CityName(c: City): string
  {
    match c
    case Casablanca => "Casablanca"
    case FES => "FES"
    case RABAT => "RABAT"
    case AGADIR => "AGADIR"
    case MARRAKECH => "MARRAKECH"
  }

  /** The optional `specs` block of a car. */
  datatype Specs = Specs(engine: string, power: string, acceleration: string, transmission: string)

  /** A car as the pages build it. Fields a page leaves undefined are `None`. */
  datatype Car = Car(
    id: int,
    name: string,
    brand: string,
    dailyRate: Option<real>,
    image: Option<string>,
    description: string,
    specs: Option<Specs>,
    userId: Option<string>,
    location: Option<string>,
    phoneNumber: Option<string>,
    featured: Option<bool>,
    city: Option<City>,
    createdAt: int)

  /** A user as the admin user list holds it; the list always fills in both flags. */
  datatype User = User(
    id: string,
    email: string,
    name: string,
    userType: string,
    phoneNumber: Option<string>,
    location: Option<string>,
    isBanned: bool,
    isScammer: bool,
    avatarUrl: Option<string>,
    createdAt: int)

  /** `v || fallback` on a nullable string: `null`, `undefined` and `""` all give the fallback. */
  function OrElse(v: Option<string>, fallback: string): (r: string)
    ensures v.Some? && v.value != "" ==> r == v.value
    ensures v.None? || v.value == "" ==> r == fallback
  {
    if v.Some? && v.value != "" then v.value else fallback
  }

  /** `v || undefined` on a nullable string: the empty string is dropped as well. */
  function OrUndefined(v: Option<string>): (r: Option<string>)
    ensures r.None? <==> v.None? || v.value == ""
    ensures r.Some? ==> r == v
  {
    if v.Some? && v.value != "" then v else None
  }

  /** `b || false` on a nullable flag. */
  function OrFalse(b: Option<bool>): (r: bool)
    ensures r <==> b == Some(true)
  {
    b.Some? && b.value
  }
}
