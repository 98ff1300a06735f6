/** The admin car form's field rules (src/components/admin/schemas/car-form-schema.ts).
    The URL check belongs to the validation library and is a parameter here. */
module CarFormSchema {
  import opened Types

  /** The raw form values, as typed in. */
  datatype CarFormValues = CarFormValues(
    name: string,
    brand: string,
    dailyRate: real,
    image: string,
    description: string,
    engine: string,
    power: string,
    acceleration: string,
    transmission: string,
    city: string)

  /** The schema's fields, in declaration order. */
  datatype Field = Name | Brand | DailyRate | Image | Description
                 | Engine | Power | Acceleration | Transmission | CityField

  /** The enum's members, in the order the schema lists them. */
  const SchemaCities: seq<string> := ["Casablanca", "FES", "RABAT", "AGADIR", "MARRAKECH"]

  /** The enum check: exact, case-sensitive membership. */
  function ParseCity(s: string): (r: Option<City>)
    ensures r.Some? <==> s in SchemaCities
    ensures r.Some? ==> CityName(r.value) == s
  {
    if s == "Casablanca" then Some(Casablanca)
    else if s == "FES" then Some(FES)
    else if s == "RABAT" then Some(RABAT)
    else if s == "AGADIR" then Some(AGADIR)
    else if s == "MARRAKECH" then Some(MARRAKECH)
    else None
  }

  /** Every city's own name passes the enum check and parses back to it. */
  lemma CityNamesParse(c: City)
    ensures CityName(c) in SchemaCities && ParseCity(CityName(c)) == Some(c)
  {
  }

  /** One field's rule. */
  predicate FieldValid(v: CarFormValues, f: Field, isUrl: string -> bool)
  {
    match f
    case Name => |v.name| >= 2
    case Brand => |v.brand| >= 2
    case DailyRate => v.dailyRate >= 0.0
    case Image => isUrl(v.image)
    case Description => |v.description| >= 10
    case Engine => true
    case Power => true
    case Acceleration => true
    case Transmission => true
    case CityField => v.city in SchemaCities
  }

  /** A field's position in the schema. */
  function Position(f: Field): nat
  {
    match f
    case Name => 0
    case Brand => 1
    case DailyRate => 2
    case Image => 3
    case Description => 4
    case Engine => 5
    case Power => 6
    case Acceleration => 7
    case Transmission => 8
    case CityField => 9
  }

  /** The schema's fields in declaration order, the order in which issues are reported. */
  const AllFields: seq<Field> :=
    [Name, Brand, DailyRate, Image, Description, Engine, Power, Acceleration, Transmission, CityField]

  /** The list names every field. */
  lemma AllFieldsListed()
    ensures forall f :: f in AllFields
  {
    forall f: Field ensures f in AllFields {
      match f
      case Name =>
      case Brand =>
      case DailyRate =>
      case Image =>
      case Description =>
      case Engine =>
      case Power =>
      case Acceleration =>
      case Transmission =>
      case CityField =>
    }
  }

  /** The positions strictly increase along the sequence. */
  predicate InSchemaOrder(fs: seq<Field>)
  {
    forall i, j :: 0 <= i < j < |fs| ==> Position(fs[i]) < Position(fs[j])
  }

  /** The fields of `fields` that fail their rule, in the order given. */
  function FailingAmong(v: CarFormValues, fields: seq<Field>, isUrl: string -> bool): (r: seq<Field>)
    ensures forall f :: f in r <==> f in fields && !FieldValid(v, f, isUrl)
    ensures InSchemaOrder(fields) ==> InSchemaOrder(r)
  {
    if fields == [] then []
    else if FieldValid(v, fields[0], isUrl) then FailingAmong(v, fields[1..], isUrl)
    else
      var rest := FailingAmong(v, fields[1..], isUrl);
      assert InSchemaOrder(fields) ==> InSchemaOrder([fields[0]] + rest) by {
        if InSchemaOrder(fields) {
          forall k | 0 <= k < |rest| ensures Position(fields[0]) < Position(rest[k]) {
            assert rest[k] in rest;
            assert rest[k] in fields[1..];
            var m :| 0 <= m < |fields[1..]| && fields[1..][m] == rest[k];
            assert fields[m + 1] == rest[k];
          }
        }
      }
      [fields[0]] + rest
  }

  /** Every field fails or passes exactly once, and issues come in schema order. */
  function Issues(v: CarFormValues, isUrl: string -> bool): (issues: seq<Field>)
    ensures forall f :: f in issues <==> !FieldValid(v, f, isUrl)
    ensures InSchemaOrder(issues)
  {
    AllFieldsListed();
    FailingAmong(v, AllFields, isUrl)
  }

  /** The message the schema attaches to a failing field; the enum keeps the
      library's default message. */
  function Message(f: Field): (m: Option<string>)
    ensures m.Some? <==> f in {Name, Brand, DailyRate, Image, Description}
    ensures f == Name ==> m == Some("Name must be at least 2 characters")
    ensures f == Brand ==> m == Some("Brand must be at least 2 characters")
    ensures f == DailyRate ==> m == Some("Daily rate must be positive")
    ensures f == Image ==> m == Some("Must be a valid URL")
    ensures f == Description ==> m == Some("Description must be at least 10 characters")
  {
    match f
    case Name => Some("Name must be at least 2 characters")
    case Brand => Some("Brand must be at least 2 characters")
    case DailyRate => Some("Daily rate must be positive")
    case Image => Some("Must be a valid URL")
    case Description => Some("Description must be at least 10 characters")
    case _ => None
  }

  /** The form passes the schema. */
  predicate Valid(v: CarFormValues, isUrl: string -> bool)
  {
    Issues(v, isUrl) == []
  }

  /** The form is valid exactly when every field rule holds. */
  lemma ValidIffEveryRule(v: CarFormValues, isUrl: string -> bool)
    ensures Valid(v, isUrl) <==>
              |v.name| >= 2 && |v.brand| >= 2 && v.dailyRate >= 0.0 && isUrl(v.image)
              && |v.description| >= 10 && ParseCity(v.city).Some?
  {
    if Valid(v, isUrl) {
      assert FieldValid(v, Name, isUrl) && FieldValid(v, Brand, isUrl);
      assert FieldValid(v, DailyRate, isUrl) && FieldValid(v, Image, isUrl);
      assert FieldValid(v, Description, isUrl) && FieldValid(v, CityField, isUrl);
    } else {
      var f := Issues(v, isUrl)[0];
      assert f in Issues(v, isUrl);
      assert !FieldValid(v, f, isUrl);
    }
  }

  /** A rate of zero is accepted although the message speaks of "positive";
      the four spec strings accept anything, the empty string included. */
  lemma LenientFields(v: CarFormValues, isUrl: string -> bool)
    ensures FieldValid(v.(dailyRate := 0.0), DailyRate, isUrl)
    ensures Message(DailyRate) == Some("Daily rate must be positive")
    ensures FieldValid(v.(engine := "", power := "", acceleration := "", transmission := ""), Engine, isUrl)
    ensures forall f :: f in {Engine, Power, Acceleration, Transmission} ==> f !in Issues(v, isUrl)
  {
  }

  /** The enum is case-sensitive. */
  lemma CityIsCaseSensitive()
    ensures ParseCity("casablanca").None? && ParseCity("Fes").None? && ParseCity("FES").Some?
  {
  }
}
