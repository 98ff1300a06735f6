/** The car search bar (src/components/SearchBar.tsx): six filter fields, the
    filter it hands to its `onSearch` callback, and the end-date picker's rule. */
module SearchBar {
  import opened Types

  /** What the search bar emits; dates are timestamps. */
  datatype SearchFilters = SearchFilters(
    searchTerm: string,
    brand: Option<string>,
    userId: Option<string>,
    startDate: Option<int>,
    endDate: Option<int>,
    city: Option<string>)

  /** The value of the "All brands / All cities / All sellers" entries. */
  const All: string := "all"

  /** A select's value as a filter: the `"all"` entry means no filter. */
  function Selection(selected: string): (r: Option<string>)
    ensures r.None? <==> selected == All
    ensures r.Some? ==> r.value == selected
  {
    if selected == All then None else Some(selected)
  }

  /** `handleSearch`: the filter built from the six fields. */
  function HandleSearch(searchTerm: string, selectedBrand: string, selectedUser: string,
                        selectedCity: string, startDate: Option<int>, endDate: Option<int>)
    : (f: SearchFilters)
    ensures f.searchTerm == searchTerm && f.startDate == startDate && f.endDate == endDate
    ensures f.brand.None? <==> selectedBrand == All
    ensures f.brand.Some? ==> f.brand.value == selectedBrand
    ensures f.userId.None? <==> selectedUser == All
    ensures f.userId.Some? ==> f.userId.value == selectedUser
    ensures f.city.None? <==> selectedCity == All
    ensures f.city.Some? ==> f.city.value == selectedCity
  {
    SearchFilters(searchTerm, Selection(selectedBrand), Selection(selectedUser),
                  startDate, endDate, Selection(selectedCity))
  }

  /** Every field of the filter is empty or unset. Such a filter excludes no
      car, but it is not the only one: with a single date set the car list
      does not filter by dates either. */
  predicate IsEmptyFilter(f: SearchFilters)
  {
    f.searchTerm == "" && f.brand.None? && f.userId.None? && f.city.None?
    && f.startDate.None? && f.endDate.None?
  }

  /** The filter the bar emits before the user has touched anything. */
  lemma InitialFilterIsEmpty()
    ensures IsEmptyFilter(HandleSearch("", All, All, All, None, None))
  {
  }

  /** The end-date calendar's `disabled` predicate. */
  function EndDateDisabled(date: int, startDate: Option<int>): (disabled: bool)
    ensures startDate.None? ==> !disabled
    ensures startDate.Some? ==> (disabled <==> date <= startDate.value)
  {
    match startDate
    case None => false
    case Some(s) => date <= s
  }

  /** An end date picked while a start date is set lies strictly after it, so
      the range it forms is ordered (the start date can still be moved later). */
  lemma PickedEndFollowsStart(date: int, start: int)
    requires !EndDateDisabled(date, Some(start))
    ensures start < date
  {
  }

  /** The search bar's state: the six fields and every filter it has emitted. */
  class SearchBarState {
    var searchTerm: string
    var selectedBrand: string
    var selectedUser: string
    var selectedCity: string
    var startDate: Option<int>
    var endDate: Option<int>
    /** The arguments of every `onSearch` call so far, oldest first. */
    var emitted: seq<SearchFilters>

    /** The filter the current fields describe; it is empty exactly
        when every field is back at its initial value. */
    function Current(): (f: SearchFilters)
      reads this
      ensures IsEmptyFilter(f) <==>
                searchTerm == "" && selectedBrand == All && selectedUser == All
                && selectedCity == All && startDate.None? && endDate.None?
    {
      HandleSearch(searchTerm, selectedBrand, selectedUser, selectedCity, startDate, endDate)
    }

    /** Initial state; the change effect runs once on mount and emits it. */
    constructor ()
      ensures searchTerm == "" && selectedBrand == All && selectedUser == All && selectedCity == All
      ensures startDate.None? && endDate.None?
      ensures emitted == [Current()] && IsEmptyFilter(emitted[0])
    {
      searchTerm, selectedBrand, selectedUser, selectedCity := "", All, All, All;
      startDate, endDate := None, None;
      new;
      emitted := [HandleSearch("", All, All, All, None, None)];
    }

    method SetSearchTerm(v: string)
      modifies this`searchTerm, this`emitted
      ensures searchTerm == v
      ensures emitted == old(emitted) + (if v == old(searchTerm) then [] else [Current()])
    {
      var changed := v != searchTerm;
      searchTerm := v;
      if changed { emitted := emitted + [Current()]; }
    }

    method SetSelectedBrand(v: string)
      modifies this`selectedBrand, this`emitted
      ensures selectedBrand == v
      ensures emitted == old(emitted) + (if v == old(selectedBrand) then [] else [Current()])
    {
      var changed := v != selectedBrand;
      selectedBrand := v;
      if changed { emitted := emitted + [Current()]; }
    }

    method SetSelectedUser(v: string)
      modifies this`selectedUser, this`emitted
      ensures selectedUser == v
      ensures emitted == old(emitted) + (if v == old(selectedUser) then [] else [Current()])
    {
      var changed := v != selectedUser;
      selectedUser := v;
      if changed { emitted := emitted + [Current()]; }
    }

    method SetSelectedCity(v: string)
      modifies this`selectedCity, this`emitted
      ensures selectedCity == v
      ensures emitted == old(emitted) + (if v == old(selectedCity) then [] else [Current()])
    {
      var changed := v != selectedCity;
      selectedCity := v;
      if changed { emitted := emitted + [Current()]; }
    }

    method SetStartDate(v: Option<int>)
      modifies this`startDate, this`emitted
      ensures startDate == v
      ensures emitted == old(emitted) + (if v == old(startDate) then [] else [Current()])
    {
      var changed := v != startDate;
      startDate := v;
      if changed { emitted := emitted + [Current()]; }
    }

    /** The calendar offers only dates its `disabled` predicate lets through;
        clicking the selected day again clears the date. */
    method SetEndDate(v: Option<int>)
      requires v.Some? ==> !EndDateDisabled(v.value, startDate)
      modifies this`endDate, this`emitted
      ensures endDate == v
      ensures emitted == old(emitted) + (if v == old(endDate) then [] else [Current()])
    {
      var changed := v != endDate;
      endDate := v;
      if changed { emitted := emitted + [Current()]; }
    }

    /** The Search button emits the current filter unconditionally. */
    method Search()
      modifies this`emitted
      ensures emitted == old(emitted) + [Current()]
    {
      emitted := emitted + [Current()];
    }
  }
}
