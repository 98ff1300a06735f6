/** The admin dashboard's featured-car list (src/pages/Admin.tsx). */
module Admin {
  import opened Types
  import opened Seqs

  /** `featuredCars.filter((car) => car.id !== id)`. */
  function WithoutId(cars: seq<Car>, id: int): (r: seq<Car>)
    ensures |r| <= |cars|
    ensures forall c :: c in r ==> c in cars && c.id != id
    ensures forall c :: c in cars && c.id != id ==> c in r
  {
    if cars == [] then []
    else if cars[0].id != id then [cars[0]] + WithoutId(cars[1..], id)
    else WithoutId(cars[1..], id)
  }

  /** How many cars in the list carry `id`. */
  function Occurrences(cars: seq<Car>, id: int): nat
  {
    if cars == [] then 0
    else (if cars[0].id == id then 1 else 0) + Occurrences(cars[1..], id)
  }

  /** Removal keeps the other cars in their original relative order. */
  lemma {:induction false} WithoutIdIsSubsequence(cars: seq<Car>, id: int)
    ensures IsSubsequence(WithoutId(cars, id), cars)
    decreases |cars|
  {
    if cars != [] {
      WithoutIdIsSubsequence(cars[1..], id);
      assert cars == [cars[0]] + cars[1..];
      SubsequenceCons(cars[0], WithoutId(cars[1..], id), cars[1..]);
    }
  }

  /** Removal leaves no car with the id, and removes exactly those. */
  lemma {:induction false} WithoutIdCounts(cars: seq<Car>, id: int)
    ensures Occurrences(WithoutId(cars, id), id) == 0
    ensures |WithoutId(cars, id)| == |cars| - Occurrences(cars, id)
    decreases |cars|
  {
    if cars != [] {
      WithoutIdCounts(cars[1..], id);
      var rest := WithoutId(cars[1..], id);
      if cars[0].id != id {
        assert ([cars[0]] + rest)[1..] == rest;
      }
    }
  }

  /** Removing an id that is not in the list changes nothing. */
  lemma {:induction false} WithoutAbsentId(cars: seq<Car>, id: int)
    requires forall c :: c in cars ==> c.id != id
    ensures WithoutId(cars, id) == cars
    decreases |cars|
  {
    if cars != [] {
      WithoutAbsentId(cars[1..], id);
      assert cars == [cars[0]] + cars[1..];
    }
  }

  /** Appending has no duplicate-id check: the added car's id occurs once more. */
  lemma {:induction false} AppendAddsOccurrence(cars: seq<Car>, newCar: Car)
    ensures Occurrences(cars + [newCar], newCar.id) == Occurrences(cars, newCar.id) + 1
    decreases |cars|
  {
    if cars != [] {
      AppendAddsOccurrence(cars[1..], newCar);
      assert (cars + [newCar])[1..] == cars[1..] + [newCar];
    } else {
      assert (cars + [newCar])[1..] == [];
    }
  }

  /** Removing the id of a car just added undoes the add, and removes every
      older car with the same id as well. */
  lemma {:induction false} RemoveAfterAdd(cars: seq<Car>, newCar: Car)
    ensures WithoutId(cars + [newCar], newCar.id) == WithoutId(cars, newCar.id)
    decreases |cars|
  {
    if cars != [] {
      RemoveAfterAdd(cars[1..], newCar);
      assert (cars + [newCar])[1..] == cars[1..] + [newCar];
    } else {
      assert (cars + [newCar])[1..] == [];
    }
  }

  /** The dashboard's `featuredCars` state. */
  class FeaturedCars {
    var featuredCars: seq<Car>

    constructor ()
      ensures featuredCars == []
    {
      featuredCars := [];
    }

    /** `handleAddCar`: append at the end. */
    method HandleAddCar(newCar: Car)
      modifies this
      ensures featuredCars == old(featuredCars) + [newCar]
      ensures Occurrences(featuredCars, newCar.id) == Occurrences(old(featuredCars), newCar.id) + 1
    {
      AppendAddsOccurrence(featuredCars, newCar);
      featuredCars := featuredCars + [newCar];
    }

    /** `handleRemoveCar`: drop every car with the id, keep the rest in order. */
    method HandleRemoveCar(id: int)
      modifies this
      ensures featuredCars == WithoutId(old(featuredCars), id)
      ensures Occurrences(featuredCars, id) == 0
      ensures IsSubsequence(featuredCars, old(featuredCars))
    {
      WithoutIdCounts(featuredCars, id);
      WithoutIdIsSubsequence(featuredCars, id);
      featuredCars := WithoutId(featuredCars, id);
    }
  }
}
