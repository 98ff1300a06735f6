/** The car details page's loader (src/pages/CarDetails.tsx): the route id is
    read with `parseInt(id, 10)`, a NaN id fails before any fetch, and the row
    becomes a car whose missing specs take fixed defaults. */
module CarDetails {
  import opened Types
  import opened Rows

  predicate IsDigit(c: char)
  {
    '0' <= c <= '9'
  }

  /** ECMAScript's StrWhiteSpaceChar: the WhiteSpace characters (tab, vertical
      tab, form feed, the byte-order mark and every space separator) and the
      LineTerminator characters. */
  predicate IsJsWhitespace(c: char)
  {
    c == '\t' || c == '\U{000B}' || c == '\U{000C}' || c == '\U{FEFF}'
    || c == ' ' || c == '\U{00A0}' || c == '\U{1680}' || ('\U{2000}' <= c <= '\U{200A}')
    || c == '\U{202F}' || c == '\U{205F}' || c == '\U{3000}'
    || c == '\n' || c == '\r' || c == '\U{2028}' || c == '\U{2029}'
  }

  /** The string with its leading whitespace removed. */
  function TrimStart(s: string): (r: string)
    ensures |r| <= |s| && r == s[|s| - |r|..]
    ensures r == [] || !IsJsWhitespace(r[0])
    ensures forall i :: 0 <= i < |s| - |r| ==> IsJsWhitespace(s[i])
  {
    if s != [] && IsJsWhitespace(s[0]) then TrimStart(s[1..]) else s
  }

  /** The string after one optional leading sign. */
  function AfterSign(t: string): (u: string)
    ensures |u| <= |t|
  {
    if t != [] && (t[0] == '-' || t[0] == '+') then t[1..] else t
  }

  /** The longest prefix made only of decimal digits. */
  function DigitPrefix(s: string): (ds: string)
    ensures |ds| <= |s| && ds == s[..|ds|]
    ensures forall i :: 0 <= i < |ds| ==> IsDigit(ds[i])
    ensures |ds| == |s| || !IsDigit(s[|ds|])
  {
    if s != [] && IsDigit(s[0]) then [s[0]] + DigitPrefix(s[1..]) else []
  }

  /** The number a string of decimal digits denotes. */
  function DigitsValue(ds: string): nat
    requires forall i :: 0 <= i < |ds| ==> IsDigit(ds[i])
  {
    if ds == [] then 0
    else
      var last := ds[|ds| - 1];
      assert IsDigit(last);
      DigitsValue(ds[..|ds| - 1]) * 10 + (last as int - '0' as int)
  }

  /** `parseInt(s, 10)`, with NaN as `None`: skip leading whitespace, read one
      optional sign, then the longest run of decimal digits; NaN when that run
      is empty. Whatever follows the digits is ignored. */
  function ParseInt(s: string): (r: Option<int>)
    ensures r.None? <==> var u := AfterSign(TrimStart(s)); u == [] || !IsDigit(u[0])
  {
    ReadSigned(TrimStart(s))
  }

  /** `parseInt` once the leading whitespace is gone. */
  function ReadSigned(t: string): (r: Option<int>)
    ensures r.None? <==> var u := AfterSign(t); u == [] || !IsDigit(u[0])
  {
    var ds := DigitPrefix(AfterSign(t));
    if ds == [] then None
    else if t[0] == '-' then Some(0 - DigitsValue(ds) as int)
    else Some(DigitsValue(ds))
  }

  /** The decimal spelling of a natural number, without sign or leading zeros. */
  function DecimalString(n: nat): (s: string)
    ensures s != [] && forall i :: 0 <= i < |s| ==> IsDigit(s[i])
  {
    var last := ['0' + (n % 10) as char];
    if n < 10 then last else DecimalString(n / 10) + last
  }

  /** Spelling a number and reading it back gives the number. */
  lemma {:induction false} DecimalStringValue(n: nat)
    ensures DigitsValue(DecimalString(n)) == n
  {
    var s := DecimalString(n);
    if n >= 10 {
      DecimalStringValue(n / 10);
      assert s[..|s| - 1] == DecimalString(n / 10);
    }
  }

  /** A run of digits followed by anything that is not a digit. */
  lemma {:induction false} DigitPrefixOfRun(ds: string, rest: string)
    requires forall i :: 0 <= i < |ds| ==> IsDigit(ds[i])
    requires rest == [] || !IsDigit(rest[0])
    ensures DigitPrefix(ds + rest) == ds
    decreases |ds|
  {
    if ds != [] {
      DigitPrefixOfRun(ds[1..], rest);
      assert (ds + rest)[1..] == ds[1..] + rest;
    }
  }

  /** A string that starts with a digit is read as its digit prefix. */
  lemma ParseIntOfDigitStart(s: string)
    requires s != [] && IsDigit(s[0])
    ensures ParseInt(s) == Some(DigitsValue(DigitPrefix(s)))
  {
    assert TrimStart(s) == s;
    assert AfterSign(s) == s;
  }

  /** A run of digits, followed by no further digit, is read as its value. */
  lemma ParseIntReadsRun(ds: string, rest: string)
    requires ds != [] && forall i :: 0 <= i < |ds| ==> IsDigit(ds[i])
    requires rest == [] || !IsDigit(rest[0])
    ensures ParseInt(ds + rest) == Some(DigitsValue(ds))
  {
    assert (ds + rest)[0] == ds[0];
    ParseIntOfDigitStart(ds + rest);
    DigitPrefixOfRun(ds, rest);
  }

  /** `parseInt` reads back every decimal id, and ignores a non-digit suffix
      such as "12abc". */
  lemma ParseIntReadsDecimal(n: nat, rest: string)
    requires rest == [] || !IsDigit(rest[0])
    ensures ParseInt(DecimalString(n) + rest) == Some(n)
  {
    ParseIntReadsRun(DecimalString(n), rest);
    DecimalStringValue(n);
  }

  /** A leading minus sign negates the number that follows. */
  lemma ParseIntReadsNegative(n: nat)
    ensures ParseInt("-" + DecimalString(n)) == Some(0 - n as int)
  {
    var s := "-" + DecimalString(n);
    assert TrimStart(s) == s;
    assert AfterSign(s) == DecimalString(n) + "";
    DigitPrefixOfRun(DecimalString(n), "");
    DecimalStringValue(n);
  }

  /** Leading whitespace does not change what `parseInt` reads. */
  lemma LeadingWhitespaceIgnored(c: char, s: string)
    requires IsJsWhitespace(c)
    ensures ParseInt([c] + s) == ParseInt(s)
  {
    var t := [c] + s;
    assert t[0] == c && t[1..] == s;
    assert TrimStart(t) == TrimStart(t[1..]);
  }

  /** An id that starts with neither whitespace, a sign nor a digit is NaN. */
  lemma NoLeadingDigitIsNaN(s: string)
    requires s != [] && !IsJsWhitespace(s[0]) && !IsDigit(s[0]) && s[0] != '-' && s[0] != '+'
    ensures ParseInt(s).None?
  {
    assert TrimStart(s) == s;
  }

  /** The empty id, a word, and the text an absent id turns into are all NaN. */
  lemma ParseIntExamples()
    ensures ParseInt("").None? && ParseInt("abc").None? && ParseInt("undefined").None?
  {
    NoLeadingDigitIsNaN("abc");
    NoLeadingDigitIsNaN("undefined");
  }

  /** The outcome of the `.single()` query for one id. */
  datatype QueryResult = QueryFailed(message: string) | NoRow | Row(row: CarRow)

  /** What the query function yields: a thrown error, or data (possibly `null`). */
  datatype Loaded = Thrown(message: string) | Data(car: Option<Car>)

  const InvalidId: string := "Invalid car ID"

  /** The row-to-car mapping of the details page. */
  function ToDetailsCar(row: CarRow): (car: Car)
    ensures car.id == row.id && car.name == row.name && car.brand == row.brand
    ensures car.description == row.description && car.createdAt == row.createdAt
    ensures car.image == Some(PrimaryImage(row.images))
    ensures car.userId == row.userId && car.location == row.location
    ensures car.phoneNumber == row.phoneNumber && car.featured == row.featured
    ensures car.dailyRate.None? && car.city.None? && car.specs.Some?
    ensures car.specs.value.engine == OrElse(row.engine, "5.0L V8")
    ensures car.specs.value.power == OrElse(row.power, "450 HP")
    ensures car.specs.value.acceleration == OrElse(row.acceleration, "4.5s 0-60 mph")
    ensures car.specs.value.transmission == OrElse(row.transmission, "8-Speed Automatic")
  {
    Car(row.id, row.name, row.brand, None, Some(PrimaryImage(row.images)), row.description,
        Some(Specs(OrElse(row.engine, "5.0L V8"), OrElse(row.power, "450 HP"),
                   OrElse(row.acceleration, "4.5s 0-60 mph"),
                   OrElse(row.transmission, "8-Speed Automatic"))),
        row.userId, row.location, row.phoneNumber, row.featured, None, row.createdAt)
  }

  /** The details page never shows an empty image or an empty spec. */
  lemma DetailsNeverBlank(row: CarRow)
    ensures var car := ToDetailsCar(row);
            car.image.value != "" && car.specs.value.engine != "" && car.specs.value.power != ""
            && car.specs.value.acceleration != "" && car.specs.value.transmission != ""
  {
  }

  /** The query function, with the database lookup as a parameter. */
  function LoadCarDetails(id: string, query: int -> QueryResult): (r: Loaded)
    ensures ParseInt(id).None? ==> r == Thrown(InvalidId)
    ensures ParseInt(id).Some? ==>
              match query(ParseInt(id).value)
              case QueryFailed(m) => r == Thrown(m)
              case NoRow => r == Data(None)
              case Row(row) => r == Data(Some(ToDetailsCar(row)))
  {
    match ParseInt(id)
    case None => Thrown(InvalidId)
    case Some(n) =>
      match query(n)
      case QueryFailed(m) => Thrown(m)
      case NoRow => Data(None)
      case Row(row) => Data(Some(ToDetailsCar(row)))
  }

  /** A NaN id fails before the lookup: the outcome does not depend on the database. */
  lemma InvalidIdSkipsFetch(id: string, q1: int -> QueryResult, q2: int -> QueryResult)
    requires ParseInt(id).None?
    ensures LoadCarDetails(id, q1) == LoadCarDetails(id, q2) == Thrown(InvalidId)
  {
  }

  /** Which branch the settled page takes: "Car not found", or past it to the car's page. */
  datatype Screen = CarNotFound | CarPage(car: Car)

  /** A thrown error leaves no data, and no data renders "Car not found". */
  function Render(r: Loaded): (s: Screen)
    ensures s.CarPage? <==> r.Data? && r.car.Some?
    ensures s.CarPage? ==> s.car == r.car.value
  {
    if r.Data? && r.car.Some? then CarPage(r.car.value) else CarNotFound
  }

  /** A details page is shown only for a numeric id whose row was found. */
  lemma PageShownOnlyForFoundRow(id: string, query: int -> QueryResult)
    ensures Render(LoadCarDetails(id, query)).CarPage? <==>
              ParseInt(id).Some? && query(ParseInt(id).value).Row?
  {
  }
}
