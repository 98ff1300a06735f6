/** The admin "Add New Car" form (src/components/admin/AddCarForm.tsx). Its
    inline schema repeats the shared car-form schema field for field, so the
    form validates with that one definition. */
module AddCarForm {
  import opened Types
  import opened CarFormSchema

  /** The options of the city select. */
  const Cities: seq<string> := ["Casablanca", "FES", "RABAT", "AGADIR", "MARRAKECH"]

  /** The select offers exactly the schema's enum, in the same order, and every
      option passes the enum check. */
  lemma CityOptionsMatchSchema()
    ensures Cities == SchemaCities
    ensures forall i :: 0 <= i < |Cities| ==> ParseCity(Cities[i]).Some?
  {
  }

  /** The form's `defaultValues`, also what `form.reset()` restores. */
  const Defaults: CarFormValues :=
    CarFormValues("", "", 0.0, "", "", "", "", "", "", "Casablanca")

  /** A fresh or reset form cannot be submitted as it stands: name, brand and
      description are too short, whereas the rate, the city and the specs pass. */
  lemma DefaultsRejected(isUrl: string -> bool)
    ensures !Valid(Defaults, isUrl)
    ensures Name in Issues(Defaults, isUrl) && Brand in Issues(Defaults, isUrl)
    ensures Description in Issues(Defaults, isUrl)
    ensures DailyRate !in Issues(Defaults, isUrl) && CityField !in Issues(Defaults, isUrl)
  {
    assert !FieldValid(Defaults, Name, isUrl);
    assert FieldValid(Defaults, DailyRate, isUrl);
    assert FieldValid(Defaults, CityField, isUrl);
  }

  /** The car `handleSubmit` builds from validated values; `id` and `createdAt`
      come from the clock. */
  function BuildCar(values: CarFormValues, id: int, createdAt: int): (car: Car)
    requires values.city in SchemaCities
    ensures car.id == id && car.createdAt == createdAt
    ensures car.name == values.name && car.brand == values.brand
    ensures car.dailyRate == Some(values.dailyRate) && car.image == Some(values.image)
    ensures car.description == values.description
    ensures car.specs == Some(Specs(values.engine, values.power, values.acceleration, values.transmission))
    ensures car.city.Some? && CityName(car.city.value) == values.city
    ensures car.userId.None? && car.location.None? && car.phoneNumber.None? && car.featured.None?
  {
    Car(id, values.name, values.brand, Some(values.dailyRate), Some(values.image),
        values.description,
        Some(Specs(values.engine, values.power, values.acceleration, values.transmission)),
        None, None, None, None, ParseCity(values.city), createdAt)
  }

  /** A car built from values that pass the schema carries the schema's guarantees. */
  lemma BuiltCarMeetsSchema(values: CarFormValues, isUrl: string -> bool, id: int, createdAt: int)
    requires Valid(values, isUrl)
    ensures values.city in SchemaCities
    ensures var car := BuildCar(values, id, createdAt);
            |car.name| >= 2 && |car.brand| >= 2 && car.dailyRate.value >= 0.0
            && isUrl(car.image.value) && |car.description| >= 10
  {
    ValidIffEveryRule(values, isUrl);
  }

  /** The form's state: the current values and the cars handed to `onSubmit`. */
  class AddCarFormState {
    var values: CarFormValues
    var submitted: seq<Car>

    constructor ()
      ensures values == Defaults && submitted == []
    {
      values, submitted := Defaults, [];
    }

    /** The user edits the fields. */
    method Edit(v: CarFormValues)
      modifies this`values
      ensures values == v
    {
      values := v;
    }

    /** `form.handleSubmit(handleSubmit)`: on a failing schema the issues are
        reported and nothing else happens; otherwise the built car goes to
        `onSubmit` once and the form resets to its defaults. */
    method Submit(isUrl: string -> bool, id: int, createdAt: int) returns (issues: seq<Field>)
      modifies this
      ensures issues == Issues(old(values), isUrl)
      ensures issues != [] ==> values == old(values) && submitted == old(submitted)
      ensures issues == [] ==> old(values).city in SchemaCities && values == Defaults
                               && submitted == old(submitted) + [BuildCar(old(values), id, createdAt)]
    {
      issues := Issues(values, isUrl);
      if issues == [] {
        ValidIffEveryRule(values, isUrl);
        var car := BuildCar(values, id, createdAt);
        submitted := submitted + [car];
        values := Defaults;
      }
    }
  }
}
