# Car rental front end: a verified model of its client-side rules

This is a model of the client-side logic of a car marketplace and rental web front end. The front end is a React application over a hosted database. Nearly all of it is queries, authentication and rendering. What it decides on its own is modelled here, one Dafny module per source file:

- **Cars** (`cars.dfy`): the car list's client-side availability filter and its row-to-car mapping. When both a start date and an end date are set, a fetched car is dropped if any of its availability records conflicts with the requested range. The conflict test has three inclusive parts: the requested start lies in the record, the requested end lies in the record, or the request covers the record. A record's status is never consulted.
- **SearchBar** (`search_bar.dfy`): holds the six filter fields. Its `handleSearch` turns each `"all"` selection into "no filter". The end-date calendar disables every date on or before the start date. A new filter is emitted on mount, on every change of a field, and on the Search button.
- **UseUsers** (`use_users.dfy`) and **UserManagement** (`user_management.dfy`): the admin user list. Each profile row is normalised to a user. Null flags become `false`, and null or empty phone and location become undefined. The `loading` flag is cleared however the fetch ends. The local ban toggle runs only after the remote update succeeds. The panel repeats the hook's code line for line, so the pure parts are defined once and the panel has its own state class.
- **Admin** (`admin.dfy`): the dashboard's featured-car list. Adding appends. Removing drops every car with the given id.
- **Signup** (`signup.dfy`): the email check runs first, then the password check. Both use exact string equality. `isLoading` is set only after both pass and is cleared in the `finally` block.
- **CarFormSchema** (`car_form_schema.dfy`) and **AddCarForm** (`add_car_form.dfy`): the car form's field rules. AddCarForm adds the city option list, the default values, the car built on submit, and the reset that follows.
- **CarDetails** (`car_details.dfy`): `parseInt(id, 10)` as ECMAScript defines it. A NaN id fails before any lookup. The row becomes a car whose empty or null specs take fixed defaults. Every failure renders "Car not found".
- **Types**, **Rows** and **Seqs** hold what the modules share: the entities of `src/types.ts`, the database row shapes, the `|| fallback` idioms, the first-image-or-placeholder rule, and order-preserving subsequences.

Dates are integer timestamps. Database rows arrive with their timestamps already parsed. JavaScript's `null` and `undefined` are both `None`.

The code's only range logic is the three-part inclusive test in the car list. It has no pricing, day-count or past-date rule, so none is modelled. The model proves that the test equals closed-interval overlap when both ranges are ordered. It also gives inputs showing that neither ordering assumption can be dropped.

A search-bar field change is detected by value. React compares state by identity, but the two agree on every input the page can produce. The text fields hold strings, which JavaScript compares by value. The single-mode calendar clears its date when the selected day is clicked again, so it never hands back an equal day as a new `Date` object.

## Model

| member | source | states |
|---|---|---|
| Types.OrElse | src/pages/CarDetails.tsx:57-60 | a nullable string or a fallback: a non-empty value passes through; null, undefined and `""` give the fallback |
| Types.OrUndefined | src/components/admin/users/use-users.ts:28-29 | a nullable string or undefined: the result is undefined exactly when the value is null or empty, and is the value otherwise |
| Types.OrFalse | src/components/admin/users/use-users.ts:30-31 | a nullable flag or false: true exactly when the flag is `true` |
| Rows.PrimaryImage | src/pages/Cars.tsx:89 | the first image URL when there is one and it is non-empty, else `"/placeholder.svg"`; never empty |
| SearchBar.Selection | src/components/SearchBar.tsx:74-76 | a select value becomes no filter exactly when it is `"all"`, and is passed through unchanged otherwise |
| SearchBar.HandleSearch | src/components/SearchBar.tsx:71-80 | term and dates are emitted unchanged; brand, seller and city are undefined exactly when `"all"` and equal to the selection otherwise |
| SearchBar.InitialFilterIsEmpty | src/components/SearchBar.tsx:30-35 | the filter built from the initial state has every field empty or unset |
| SearchBar.EndDateDisabled | src/components/SearchBar.tsx:182 | with no start date nothing is disabled; with one, a date is disabled exactly when it is at or before the start |
| SearchBar.PickedEndFollowsStart | src/components/SearchBar.tsx:182 | an end date the calendar lets through lies strictly after the start date |
| SearchBar.SearchBarState.constructor | src/components/SearchBar.tsx:30-35 | empty term, all three selects `"all"`, no dates; the mount effect has emitted one filter, and every field of it is empty or unset |
| SearchBar.SearchBarState.Current | src/components/SearchBar.tsx:71-80 | the filter the current fields give; every field of it is empty or unset exactly when every field of the state is back at its initial value |
| SearchBar.SearchBarState.SetSearchTerm | src/components/SearchBar.tsx:67-69 | the field takes the value; a filter from the new state is emitted exactly when the value changed |
| SearchBar.SearchBarState.SetSelectedBrand | src/components/SearchBar.tsx:96 | as for the term, for the brand select |
| SearchBar.SearchBarState.SetSelectedCity | src/components/SearchBar.tsx:110 | as for the term, for the city select |
| SearchBar.SearchBarState.SetSelectedUser | src/components/SearchBar.tsx:126 | as for the term, for the seller select |
| SearchBar.SearchBarState.SetStartDate | src/components/SearchBar.tsx:158 | as for the term, for the start date |
| SearchBar.SearchBarState.SetEndDate | src/components/SearchBar.tsx:181-182 | only a date the disabled predicate allows, or none, can be set; emits on change as for the term |
| SearchBar.SearchBarState.Search | src/components/SearchBar.tsx:189-194 | the Search button emits the current filter unconditionally |
| Cars.InitialFiltersAgree | src/pages/Cars.tsx:10-17 | the page's initial filter equals the search bar's first emission |
| Cars.Conflicts | src/pages/Cars.tsx:73-77 | the three-part inclusive test of one record against the requested range; ConflictIsClosedOverlap, BoundaryDaysConflict, OverlapNeedsOrderedRanges, StatusIsIgnored and BookingExamples state its properties |
| Cars.HasConflict | src/pages/Cars.tsx:67-78 | the `.some` call: some record of the car conflicts with the range; KeptIffNoConflict and UnrestrictedCarKept are about it |
| Cars.IsBookable | src/pages/Cars.tsx:65-80 | the filter callback: no availability list, or no conflicting record; FilterBookable, FilterBookableCounts and KeptIffNoConflict are stated in its terms |
| Cars.FilterBookable | src/pages/Cars.tsx:64-81 | the result holds exactly the fetched rows that have no availability list or no conflicting record, and is no longer than the input |
| Cars.AvailableRows | src/pages/Cars.tsx:62-82 | without both dates the rows are untouched; with both, a row survives exactly when it is bookable for the range |
| Cars.ToCar | src/pages/Cars.tsx:84-97 | `dailyRate` from `daily_rate`, the image from the first-image-or-placeholder rule (never empty), no specs, the remaining columns copied |
| Cars.ToCars | src/pages/Cars.tsx:84 | one car per row, in order |
| Cars.SearchResults | src/pages/Cars.tsx:62-97 | the listed cars are never more than the fetched rows |
| Cars.NoDateRangeKeepsEveryCar | src/pages/Cars.tsx:63 | if either date is absent, every fetched car is listed |
| Cars.UnrestrictedCarKept | src/pages/Cars.tsx:65-67 | a car with absent or empty availability is always kept |
| Cars.KeptIffNoConflict | src/pages/Cars.tsx:67-80 | under a range, a car with records is kept exactly when none of its records conflicts |
| Cars.BoundaryDaysConflict | src/pages/Cars.tsx:74-75 | starting on a record's last day, or ending on its first, is a conflict |
| Cars.ConflictIsClosedOverlap | src/pages/Cars.tsx:73-77 | for ordered ranges the three-part test equals `reqStart <= recEnd && reqEnd >= recStart` |
| Cars.OverlapNeedsOrderedRanges | src/pages/Cars.tsx:73-77 | an inverted request, or an inverted record, makes the test and closed overlap disagree |
| Cars.StatusIsIgnored | src/pages/Cars.tsx:67-77 | records with the same dates block alike, whatever their status |
| Cars.FilterBookableIsSubsequence | src/pages/Cars.tsx:64 | the filter keeps its survivors in fetch order |
| Cars.FilterBookableCounts | src/pages/Cars.tsx:64-81 | each bookable row occurs in the result exactly as often as among the fetched rows, and any other row not at all |
| Cars.FilterBookableKeepsAll | src/pages/Cars.tsx:64-81 | when every row is bookable, the filter returns the rows unchanged |
| Cars.ResultsComeFromFetchedRows | src/pages/Cars.tsx:64-97 | the output is the mapping of an order-preserving selection of the fetched rows, all of them bookable when a range is set |
| Cars.BookingExamples | src/pages/Cars.tsx:73-77 | record 10–15 blocks a request 15–20, and does not block 16–20 |
| UseUsers.ToUser | src/components/admin/users/use-users.ts:23-33 | id, name and type copied; email `""`; flags true only when stored `true`; phone and location undefined exactly when null or empty |
| UseUsers.ToUsers | src/components/admin/users/use-users.ts:23 | one user per profile, same length and order |
| UseUsers.ToggleBan | src/components/admin/users/use-users.ts:60-63 | same length; users with the id get `isBanned = !currentBanStatus`, whatever they held, and nothing else changes; other users unchanged |
| UseUsers.ToggleBanIdempotent | src/components/admin/users/use-users.ts:62 | repeating the toggle with the same arguments gives the same list as applying it once |
| UseUsers.ToggleBanUndo | src/components/admin/users/use-users.ts:55-63 | when the argument is the shown status, banning then unbanning restores the list |
| UseUsers.UsersState.constructor | src/components/admin/users/use-users.ts:9-10 | empty list, `loading` true |
| UseUsers.UsersState.FinishFetch | src/components/admin/users/use-users.ts:20-45 | `loading` false afterwards in every case; the list is replaced by the mapped profiles only when data arrived |
| UseUsers.UsersState.HandleToggleBan | src/components/admin/users/use-users.ts:51-77 | the list is toggled when the remote update succeeded and untouched when it failed |
| UserManagement.UserManagementState.constructor | src/components/admin/UserManagement.tsx:19-20 | empty list, `loading` true |
| UserManagement.UserManagementState.ShowsLoading | src/components/admin/UserManagement.tsx:92-94 | the panel shows "Loading..." while `loading` holds; the constructor makes it true and FinishFetch makes it false |
| UserManagement.UserManagementState.FinishFetch | src/components/admin/UserManagement.tsx:30-55 | `loading` false after the fetch whatever the outcome; the list is replaced only when data arrived |
| UserManagement.UserManagementState.HandleToggleBan | src/components/admin/UserManagement.tsx:61-90 | length kept; toggled only after a successful update, otherwise unchanged |
| Admin.WithoutId | src/pages/Admin.tsx:23 | the result holds exactly the cars whose id differs, and is no longer than the input |
| Admin.WithoutIdIsSubsequence | src/pages/Admin.tsx:23 | removal keeps the other cars in their relative order |
| Admin.WithoutIdCounts | src/pages/Admin.tsx:23 | no car with the id remains, and exactly the cars with that id are removed |
| Admin.WithoutAbsentId | src/pages/Admin.tsx:23 | removing an id that is not present leaves the list unchanged |
| Admin.AppendAddsOccurrence | src/pages/Admin.tsx:14-15 | adding makes no duplicate check: the new car's id occurs once more |
| Admin.RemoveAfterAdd | src/pages/Admin.tsx:14-23 | removing the id of a car just added gives what removing it before the add gives |
| Admin.FeaturedCars.constructor | src/pages/Admin.tsx:12 | the featured list starts empty |
| Admin.FeaturedCars.HandleAddCar | src/pages/Admin.tsx:14-20 | the new car is appended at the end, and earlier entries are unchanged |
| Admin.FeaturedCars.HandleRemoveCar | src/pages/Admin.tsx:22-28 | no car with the id remains; the rest keep their order |
| Signup.CheckConfirmation | src/pages/Signup.tsx:31-47 | proceeds exactly when both pairs are equal; email mismatch is reported first, password mismatch only with equal emails |
| Signup.CheckMessage | src/pages/Signup.tsx:31-47 | "Emails do not match", "Passwords do not match", or no message when the checks pass |
| Signup.CheckExamples | src/pages/Signup.tsx:31-40 | when both pairs differ only the email error is shown; a case or trailing-space difference is a mismatch |
| Signup.OutcomeMessage | src/pages/Signup.tsx:79-89 | the success text, or the error's message, or "Failed to create account" when that message is empty |
| Signup.SignupPage.constructor | src/pages/Signup.tsx:24 | not loading, no sign-up call made |
| Signup.SignupPage.HandleSubmit | src/pages/Signup.tsx:28-62 | a failed check makes no call and leaves `isLoading` as it was; otherwise `isLoading` is set and one sign-up call is recorded |
| Signup.SignupPage.Settle | src/pages/Signup.tsx:64-92 | `isLoading` is false after the attempt, success or failure; the toast text is the outcome's message |
| CarFormSchema.ParseCity | src/components/admin/schemas/car-form-schema.ts:14 | accepts exactly the five enum strings, case-sensitively, and returns the city of that name |
| CarFormSchema.CityNamesParse | src/components/admin/schemas/car-form-schema.ts:14 | every city's own name is in the enum and parses back to that city |
| CarFormSchema.FieldValid | src/components/admin/schemas/car-form-schema.ts:5-14 | one field's rule: minimum lengths 2, 2 and 10, a non-negative rate, the URL check, the city enum, and no rule for the four spec strings; LenientFields and CityIsCaseSensitive are about it |
| CarFormSchema.FailingAmong | src/components/admin/schemas/car-form-schema.ts:4-15 | the failing fields among those given, in the order given |
| CarFormSchema.Issues | src/components/admin/schemas/car-form-schema.ts:4-15 | a field is reported exactly when it breaks its rule, in schema order |
| CarFormSchema.Valid | src/components/admin/schemas/car-form-schema.ts:4-15 | the form passes when no field has an issue; ValidIffEveryRule states it rule by rule |
| CarFormSchema.Message | src/components/admin/schemas/car-form-schema.ts:5-9 | the five custom message texts, field by field; none for the spec strings or the enum |
| CarFormSchema.ValidIffEveryRule | src/components/admin/schemas/car-form-schema.ts:4-15 | valid exactly when name ≥ 2, brand ≥ 2, rate ≥ 0, URL, description ≥ 10 and the city is in the enum |
| CarFormSchema.LenientFields | src/components/admin/schemas/car-form-schema.ts:7-13 | a zero rate passes although its message says "Daily rate must be positive", and the four spec strings never fail, even when empty |
| CarFormSchema.CityIsCaseSensitive | src/components/admin/schemas/car-form-schema.ts:14 | `"casablanca"` and `"Fes"` are rejected and `"FES"` is accepted |
| AddCarForm.CityOptionsMatchSchema | src/components/admin/AddCarForm.tsx:36 | the city options equal the schema's enum in order, and each passes it |
| AddCarForm.BuiltCarMeetsSchema | src/components/admin/AddCarForm.tsx:19-30 | a car built from values that pass the inline schema has name and brand ≥ 2, rate ≥ 0, a URL image and description ≥ 10 |
| AddCarForm.DefaultsRejected | src/components/admin/AddCarForm.tsx:41-52 | the defaults fail on name, brand and description, and pass on rate and city |
| AddCarForm.BuildCar | src/components/admin/AddCarForm.tsx:55-71 | copies name, brand, rate, image, description and city; specs hold exactly the four spec strings; id and creation time from the clock |
| AddCarForm.AddCarFormState.constructor | src/components/admin/AddCarForm.tsx:39-53 | the form starts at its defaults, and nothing has been submitted |
| AddCarForm.AddCarFormState.Edit | src/components/admin/AddCarForm.tsx:79-91 | the fields take the edited values |
| AddCarForm.AddCarFormState.Submit | src/components/admin/AddCarForm.tsx:55-78 | invalid values are reported and change nothing; valid ones go to `onSubmit` once as the built car, and then the form resets to the defaults |
| CarDetails.TrimStart | src/pages/CarDetails.tsx:18 | drops exactly the leading ECMAScript whitespace |
| CarDetails.DigitPrefix | src/pages/CarDetails.tsx:18 | the longest run of decimal digits at the front |
| CarDetails.ParseInt | src/pages/CarDetails.tsx:18 | NaN exactly when no digit follows the leading whitespace and optional sign |
| CarDetails.DecimalStringValue | src/pages/CarDetails.tsx:18 | the digits of a number read back as that number |
| CarDetails.DigitPrefixOfRun | src/pages/CarDetails.tsx:18 | reading digits stops at the first non-digit |
| CarDetails.ParseIntOfDigitStart | src/pages/CarDetails.tsx:18 | a string starting with a digit is read as the value of its leading digit run |
| CarDetails.ParseIntReadsRun | src/pages/CarDetails.tsx:18 | a run of digits not followed by another digit is read as its value, whatever comes after |
| CarDetails.ParseIntReadsDecimal | src/pages/CarDetails.tsx:18 | every decimal id parses to its number, also with a non-digit suffix |
| CarDetails.ParseIntReadsNegative | src/pages/CarDetails.tsx:18 | a leading minus negates the number |
| CarDetails.LeadingWhitespaceIgnored | src/pages/CarDetails.tsx:18 | leading whitespace does not change the result |
| CarDetails.NoLeadingDigitIsNaN | src/pages/CarDetails.tsx:18-22 | an id starting with something other than whitespace, a sign or a digit is NaN |
| CarDetails.ParseIntExamples | src/pages/CarDetails.tsx:18-22 | `""`, `"abc"` and `"undefined"` are NaN |
| CarDetails.ToDetailsCar | src/pages/CarDetails.tsx:43-62 | id, name, brand and description copied; image from the placeholder rule; each spec is its value when non-empty, else its default |
| CarDetails.DetailsNeverBlank | src/pages/CarDetails.tsx:49-61 | the image and all four specs shown are never empty |
| CarDetails.LoadCarDetails | src/pages/CarDetails.tsx:16-63 | a NaN id throws "Invalid car ID"; otherwise a query error is rethrown, a missing row gives null, and a row gives its car |
| CarDetails.InvalidIdSkipsFetch | src/pages/CarDetails.tsx:18-24 | for a NaN id the outcome does not depend on the database |
| CarDetails.Render | src/pages/CarDetails.tsx:74-83 | the not-found branch is skipped exactly for a loaded car; a thrown error and null both give "Car not found" |
| CarDetails.PageShownOnlyForFoundRow | src/pages/CarDetails.tsx:18-83 | the not-found branch is skipped exactly when the id is numeric and its row was found |

## Left out

- Every backend call is out of the model: the queries, the server-side `or`/`ilike`/`eq`/`limit(9)` filters, authentication, the profile insert and storage uploads. Their results are parameters: fetched rows, success flags, and sign-up outcomes.
- The payment edge function is out of the model. It is HTTP plumbing, and its order id comes from the clock and a random number.
- String-to-`Date` parsing is out of the model, and every date is an integer timestamp. Availability dates are day strings read as UTC midnight, while calendar picks are local midnights. The model takes both as given timestamps, so it does not capture the time-zone shift between them. An unparsable date, which would compare false with everything, is not modelled.
- `Date.now()` and `new Date()` in the car form are parameters (`id`, `createdAt`).
- The zod `.url()` check is a parameter `isUrl`.
- CarFormSchema.Issues: string lengths count Unicode scalar values, where zod counts UTF-16 code units, so the two differ for characters outside the Basic Multilingual Plane.
- The enum's default error message belongs to the validation library and is not modelled.
- CarDetails.ParseInt: returns an unbounded integer. It does not model the precision lost beyond 2^53, or the negative zero that `"-0"` gives.
- An absent route id is passed as the text it turns into, `"undefined"`, which parses to NaN.
- `type` and `price` on the details page are left out. They read columns that the `cars` row does not have, so at run time they are undefined.
- CarDetails.Render: `CarPage` means only that the not-found branch is skipped. The found-car branch then calls `toLocaleString` on the undefined `price`, which throws during render; that throw is not modelled.
- The query library retries a failed query before settling. The model gives only the settled outcome.
- The brand and seller option lists that the search bar fetches are out of the model. So is the batching of several setter calls into one render.
- UseUsers.UsersState.HandleToggleBan: acts on the current list. The source maps the list captured when the handler was created, so it can overwrite a list replaced in the meantime; that stale read is not modelled.
- UserManagement.UserManagementState.HandleToggleBan: acts on the current list. The panel's handler also maps the `users` it captured when it was created, so the same stale read is possible there, and it is not modelled either.
- Toasts, navigation, rendering, effect scheduling and the render-only components are out of the model. The one exception is the details page's "Car not found" branch.
- The profile, profile-editor, user-info and user-search pages are out of the model. They are almost entirely I/O with single field copies.
- Signup.SignupPage.Settle: requires `isLoading`, because its `finally` block runs only after a submit that passed both checks.
