/** The car list page's query post-processing (src/pages/Cars.tsx): the
    client-side availability filter over the fetched rows and the row-to-car
    mapping. The server-side query that fetched the rows is not part of it. */
module Cars {
  import opened Types
  import opened Rows
  import opened Seqs
  import SearchBar

  /** The page's filter state before the search bar reports anything. */
  const InitialFilters: SearchBar.SearchFilters :=
    SearchBar.SearchFilters("", None, None, None, None, None)

  /** The search bar's first emission is exactly the page's initial filter state. */
  lemma InitialFiltersAgree()
    ensures SearchBar.HandleSearch("", SearchBar.All, SearchBar.All, SearchBar.All, None, None)
            == InitialFilters
  {
  }

  /** The three-part test of one availability record against the requested
      range, every comparison inclusive. The record's status is not consulted. */
  predicate Conflicts(reqStart: int, reqEnd: int, rec: AvailabilityRow)
  {
    (reqStart >= rec.startDate && reqStart <= rec.endDate)
    || (reqEnd >= rec.startDate && reqEnd <= rec.endDate)
    || (reqStart <= rec.startDate && reqEnd >= rec.endDate)
  }

  /** `car_availability.some(...)`. */
  predicate HasConflict(recs: seq<AvailabilityRow>, reqStart: int, reqEnd: int)
  {
    exists i | 0 <= i < |recs| :: Conflicts(reqStart, reqEnd, recs[i])
  }

  /** Whether the filter keeps a car: no availability list, or no conflicting record. */
  predicate IsBookable(row: CarRow, reqStart: int, reqEnd: int)
  {
    row.availability.None? || !HasConflict(row.availability.value, reqStart, reqEnd)
  }

  /** `data.filter(...)` with both dates set: the bookable rows, in fetch order. */
  function FilterBookable(rows: seq<CarRow>, reqStart: int, reqEnd: int): (r: seq<CarRow>)
    ensures |r| <= |rows|
    ensures forall x :: x in r ==> x in rows && IsBookable(x, reqStart, reqEnd)
    ensures forall x :: x in rows && IsBookable(x, reqStart, reqEnd) ==> x in r
  {
    if rows == [] then []
    else if IsBookable(rows[0], reqStart, reqEnd) then
      [rows[0]] + FilterBookable(rows[1..], reqStart, reqEnd)
    else
      FilterBookable(rows[1..], reqStart, reqEnd)
  }

  /** The rows that survive the client-side step: filtered only when both dates are set. */
  function AvailableRows(rows: seq<CarRow>, filters: SearchBar.SearchFilters): (r: seq<CarRow>)
    ensures filters.startDate.None? || filters.endDate.None? ==> r == rows
    ensures filters.startDate.Some? && filters.endDate.Some? ==>
              forall x :: x in r <==>
                x in rows && IsBookable(x, filters.startDate.value, filters.endDate.value)
  {
    if filters.startDate.Some? && filters.endDate.Some? then
      FilterBookable(rows, filters.startDate.value, filters.endDate.value)
    else
      rows
  }

  /** The row-to-car mapping of the list page. */
  function ToCar(row: CarRow): (c: Car)
    ensures c.id == row.id && c.name == row.name && c.brand == row.brand
    ensures c.dailyRate == Some(row.dailyRate)
    ensures c.image == Some(PrimaryImage(row.images)) && c.image.value != ""
    ensures c.description == row.description && c.city == Some(row.city)
    ensures c.userId == row.userId && c.location == row.location
    ensures c.phoneNumber == row.phoneNumber && c.featured == row.featured
    ensures c.specs.None? && c.createdAt == row.createdAt
  {
    Car(row.id, row.name, row.brand, Some(row.dailyRate), Some(PrimaryImage(row.images)),
        row.description, None, row.userId, row.location, row.phoneNumber, row.featured,
        Some(row.city), row.createdAt)
  }

  /** `filteredData.map(...)`. */
  function ToCars(rows: seq<CarRow>): (cs: seq<Car>)
    ensures |cs| == |rows|
    ensures forall i :: 0 <= i < |rows| ==> cs[i] == ToCar(rows[i])
  {
    seq(|rows|, i requires 0 <= i < |rows| => ToCar(rows[i]))
  }

  /** What the query function returns for the fetched rows. */
  function SearchResults(rows: seq<CarRow>, filters: SearchBar.SearchFilters): (cs: seq<Car>)
    ensures |cs| <= |rows|
  {
    ToCars(AvailableRows(rows, filters))
  }

  /** Without both dates, every fetched car is listed. */
  lemma NoDateRangeKeepsEveryCar(rows: seq<CarRow>, filters: SearchBar.SearchFilters)
    requires filters.startDate.None? || filters.endDate.None?
    ensures SearchResults(rows, filters) == ToCars(rows)
  {
  }

  /** A car without availability records is always listed. */
  lemma {:induction false} UnrestrictedCarKept(rows: seq<CarRow>, row: CarRow,
                                               filters: SearchBar.SearchFilters)
    requires row in rows
    requires row.availability.None? || row.availability.value == []
    ensures row in AvailableRows(rows, filters)
  {
    if filters.startDate.Some? && filters.endDate.Some? {
      assert IsBookable(row, filters.startDate.value, filters.endDate.value);
    }
  }

  /** Under a date range, a fetched car is kept exactly when none of its
      availability records conflicts with the range, whatever their status. */
  lemma {:induction false} KeptIffNoConflict(rows: seq<CarRow>, row: CarRow, reqStart: int, reqEnd: int)
    requires row in rows && row.availability.Some?
    ensures row in FilterBookable(rows, reqStart, reqEnd) <==>
              forall i :: 0 <= i < |row.availability.value| ==>
                !Conflicts(reqStart, reqEnd, row.availability.value[i])
  {
  }

  /** Shared boundary days conflict: starting on a record's last day, or ending on its first. */
  lemma BoundaryDaysConflict(reqStart: int, reqEnd: int, rec: AvailabilityRow)
    requires rec.startDate <= rec.endDate
    ensures reqStart == rec.endDate ==> Conflicts(reqStart, reqEnd, rec)
    ensures reqEnd == rec.startDate ==> Conflicts(reqStart, reqEnd, rec)
  {
  }

  /** For ordered ranges the three-part test is closed-interval overlap. */
  lemma ConflictIsClosedOverlap(reqStart: int, reqEnd: int, rec: AvailabilityRow)
    requires reqStart <= reqEnd && rec.startDate <= rec.endDate
    ensures Conflicts(reqStart, reqEnd, rec) <==> reqStart <= rec.endDate && reqEnd >= rec.startDate
  {
  }

  /** Neither ordering hypothesis can be dropped: an inverted request or an
      inverted record makes the three-part test and closed overlap disagree. */
  lemma OverlapNeedsOrderedRanges()
    ensures var rec := AvailabilityRow(3, 7, "booked");
            Conflicts(5, 1, rec) && !(5 <= rec.endDate && 1 >= rec.startDate)
    ensures var rec := AvailabilityRow(5, 1, "booked");
            Conflicts(2, 3, rec) && !(2 <= rec.endDate && 3 >= rec.startDate)
  {
  }

  /** A record's status never matters: records with the same dates block alike. */
  lemma {:induction false} StatusIsIgnored(recs: seq<AvailabilityRow>, others: seq<AvailabilityRow>,
                                           reqStart: int, reqEnd: int)
    requires |recs| == |others|
    requires forall i :: 0 <= i < |recs| ==>
               recs[i].startDate == others[i].startDate && recs[i].endDate == others[i].endDate
    ensures HasConflict(recs, reqStart, reqEnd) <==> HasConflict(others, reqStart, reqEnd)
  {
    if HasConflict(recs, reqStart, reqEnd) {
      var i :| 0 <= i < |recs| && Conflicts(reqStart, reqEnd, recs[i]);
      assert Conflicts(reqStart, reqEnd, others[i]);
    }
    if HasConflict(others, reqStart, reqEnd) {
      var i :| 0 <= i < |others| && Conflicts(reqStart, reqEnd, others[i]);
      assert Conflicts(reqStart, reqEnd, recs[i]);
    }
  }

  /** The filter deletes rows without reordering the survivors. */
  lemma {:induction false} FilterBookableIsSubsequence(rows: seq<CarRow>, reqStart: int, reqEnd: int)
    ensures IsSubsequence(FilterBookable(rows, reqStart, reqEnd), rows)
    decreases |rows|
  {
    if rows != [] {
      FilterBookableIsSubsequence(rows[1..], reqStart, reqEnd);
      assert rows == [rows[0]] + rows[1..];
      SubsequenceCons(rows[0], FilterBookable(rows[1..], reqStart, reqEnd), rows[1..]);
    }
  }

  /** The filter neither duplicates nor drops copies: a bookable row occurs in
      the result as often as among the fetched rows, any other row not at all. */
  lemma {:induction false} FilterBookableCounts(rows: seq<CarRow>, reqStart: int, reqEnd: int, x: CarRow)
    ensures multiset(FilterBookable(rows, reqStart, reqEnd))[x] ==
              if IsBookable(x, reqStart, reqEnd) then multiset(rows)[x] else 0
    decreases |rows|
  {
    if rows != [] {
      FilterBookableCounts(rows[1..], reqStart, reqEnd, x);
      assert rows == [rows[0]] + rows[1..];
    }
  }

  /** When every row is bookable the filter returns the rows unchanged. */
  lemma {:induction false} FilterBookableKeepsAll(rows: seq<CarRow>, reqStart: int, reqEnd: int)
    requires forall x :: x in rows ==> IsBookable(x, reqStart, reqEnd)
    ensures FilterBookable(rows, reqStart, reqEnd) == rows
    decreases |rows|
  {
    if rows != [] {
      FilterBookableKeepsAll(rows[1..], reqStart, reqEnd);
      assert rows == [rows[0]] + rows[1..];
    }
  }

  /** The listed cars are the mapped images of an order-preserving selection of
      the fetched rows, every one of them bookable when a range is set. */
  lemma {:induction false} ResultsComeFromFetchedRows(rows: seq<CarRow>, filters: SearchBar.SearchFilters)
    ensures exists kept ::
              IsSubsequence(kept, rows) && SearchResults(rows, filters) == ToCars(kept)
              && (filters.startDate.Some? && filters.endDate.Some? ==>
                    forall x :: x in kept ==> IsBookable(x, filters.startDate.value, filters.endDate.value))
  {
    var kept := AvailableRows(rows, filters);
    if filters.startDate.Some? && filters.endDate.Some? {
      FilterBookableIsSubsequence(rows, filters.startDate.value, filters.endDate.value);
    } else {
      SubsequenceReflexive(rows);
    }
    assert IsSubsequence(kept, rows) && SearchResults(rows, filters) == ToCars(kept);
  }

  /** The examples of a shared boundary day and of the next free day. */
  lemma BookingExamples()
    ensures Conflicts(15, 20, AvailabilityRow(10, 15, "booked"))
    ensures !Conflicts(16, 20, AvailabilityRow(10, 15, "maintenance"))
  {
  }
}
