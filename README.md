# Food-truck permit browser: the query and filter engine

This Dafny project models the query and filter engine of a browser for
mobile food-vending permits. It covers:

- the fetched permit records and the distinct statuses derived from them;
- the two result lists the page derives from its inputs:
  - the name-or-address list, a case-insensitive substring match plus a
    status filter;
  - the geolocation list, the five nearest records to a latitude/longitude
    pair that also pass the status filter, stably sorted by distance;
- the choice of the list to display;
- the sidebar's per-mode memory of status filters, with its once-only
  `["APPROVED"]` default on the first visit to geolocation mode;
- the status checkboxes: toggle, in-place sort of the options, checked
  state and label;
- the latitude/longitude search panel: number reading, the range check,
  the "three decimals" check, the order of its warnings, clear, and the
  refill of empty inputs from the current query.

The pure pipelines are functions with contracts and lemmas. The page
(`Page.QueryController`), the sidebar (`SidebarState.Sidebar`), the search
panel (`GeoSearch.GeolocationSearch`) and the data hook
(`FoodTruckData.FoodTruckStore`) are classes whose methods update their
fields. Each React effect is an explicit step that the setter methods run
after they change an input. The hook's list of statuses is an `array`,
because the checkbox component sorts it in place.

Modules:

| module | file | contents |
|---|---|---|
| `Seqs` | seqs.dfy | subsequence, no-duplicates, first index |
| `Ascii` | ascii.dfy | ASCII case mapping, `includes`, code-unit order |
| `Schema` | schema.dfy | the permit record, the canonical status |
| `Ranking` | ranking.dfy | stable ascending sort by distance |
| `Filters` | filters.dfy | the two result lists |
| `Page` | query_controller.dfy | the page state and its effects |
| `SidebarState` | sidebar.dfy | per-mode status filters |
| `StatusFilter` | status_filter.dfy | checkbox toggle, sort, label |
| `FoodTruckData` | use_food_trucks.dfy | status derivation, fetch outcome |
| `Coordinates` | coordinates.dfy | number reading and the two coordinate checks |
| `GeoSearch` | geo_search.dfy | the latitude/longitude search panel |

Both lists read the one shared `statusFilter`
(src/components/FoodTruck.tsx:57 and 77-78). The sidebar remembers one
filter per search mode and keeps the shared filter equal to the filter of
the mode on screen, so each list is filtered by the active mode's filter.
`Page.QueryController.Valid` computes both lists from the shared filter,
and `SidebarState.Sidebar.Valid` states that the shared filter is the
active mode's filter.

## Model

| member | source | states |
|---|---|---|
| Schema.CanonicalStatus | src/components/FoodTruck.tsx:57 | a missing status reads as ""; otherwise the status keeps its length and each character is the ASCII upper case of the status's character, so no lower-case letter is left |
| Ascii.ToLower | src/components/FoodTruck.tsx:50-53 | same length; every character is mapped by the ASCII lower-case mapping |
| Ascii.ToUpper | src/components/FoodTruck.tsx:57 | same length; every character is mapped by the ASCII upper-case mapping |
| Ascii.Includes | src/components/FoodTruck.tsx:50-53 | `includes`: the empty needle is always found, and a found needle is no longer than the text |
| Ascii.IncludesIffOccurs | src/components/FoodTruck.tsx:50-53 | the left-to-right `includes` scan succeeds exactly when the needle occurs at some position of the text |
| Ascii.IncludesLowerIff | src/components/FoodTruck.tsx:49-53 | `includes` on the lower-cased texts holds exactly when the needle occurs in the text, ignoring ASCII case |
| Ascii.LexLe | src/components/StatusFilter.tsx:33 | the default sort order: a prefix comes first, and a text never comes before its own proper prefix |
| Ascii.LexLeTotal | src/components/StatusFilter.tsx:33 | any two strings are ordered one way or the other by the default sort order |
| Ascii.LexLeTransitive | src/components/StatusFilter.tsx:33 | the default sort order is transitive |
| Ascii.LexLeAntisymmetric | src/components/StatusFilter.tsx:33 | two strings ordered both ways are equal |
| Filters.MatchesQuery | src/components/FoodTruck.tsx:49-53 | a record matches exactly when its applicant (if present) or its address contains the query, ignoring case |
| Filters.MatchesStatus | src/components/FoodTruck.tsx:55-57 | an empty filter admits every record; otherwise a record passes exactly when its canonical status is listed, so a record without a status passes only a filter that lists "" |
| Filters.KeepMatchingText | src/components/FoodTruck.tsx:48-59 | the kept records are a subsequence of the fetched list; each record keeps all its copies when it matches both the query and the status filter, and none otherwise |
| Filters.KeepMatchingTextUnfiltered | src/components/FoodTruck.tsx:43-45 | with an empty query and no status filter, filtering would keep the whole list, so the shortcut returns what the filter would |
| Filters.FilterByNameOrAddress | src/components/FoodTruck.tsx:42-62 | the whole fetched list when query and status filter are empty; always an order-preserving selection; a record is in it exactly when it is fetched and matches |
| Filters.TextResultMatches | src/components/FoodTruck.tsx:49-57 | every listed record contains the query, ignoring case, in its applicant or its address (a missing applicant leaves only the address), and has its status in a non-empty filter |
| Filters.KeepGeoEligible | src/components/FoodTruck.tsx:72-79 | a subsequence of the fetched list holding exactly the records with both coordinates that pass the status filter, with all their copies |
| Filters.FilterByGeolocation | src/components/FoodTruck.tsx:64-93 | empty unless the query holds exactly two numbers; otherwise the first five (or all) of the stably sorted candidates; at most five entries; sorted by distance; every entry is a fetched, eligible record with the distance from the query point |
| Filters.GeoCandidateFacts | src/components/FoodTruck.tsx:72-89 | every ranked candidate is a fetched eligible record carrying its own distance from the point |
| Filters.RankedFrom | src/components/FoodTruck.tsx:80-88 | a ranked entry is the record itself with its distance from the searched point |
| Filters.AttachDistance | src/components/FoodTruck.tsx:80-88 | one entry per record, in the same order, each the record itself with its distance from the searched point |
| Filters.GeoCandidates | src/components/FoodTruck.tsx:72-89 | the ranked candidates are a permutation of the eligible records with their distances, sorted by distance, and at every distance in the order of the fetched list |
| Filters.EligibleIsCandidate | src/components/FoodTruck.tsx:72-89 | every eligible record is among the ranked candidates |
| Filters.GeoResultIsNearest | src/components/FoodTruck.tsx:72-90 | the list has five entries, or every eligible one when fewer exist, and an eligible record left out is at least as far away as every record kept |
| Filters.GeoResultStable | src/components/FoodTruck.tsx:89-90 | records at the same distance appear in the list in their fetched order (a prefix of them) |
| Ranking.InsertByDistance | src/components/FoodTruck.tsx:89 | inserting adds exactly the one entry, keeps a sorted list sorted, and keeps a lower bound on the distances |
| Ranking.SortByDistance | src/components/FoodTruck.tsx:89 | the result is a permutation of the input, sorted ascending by distance |
| Ranking.InsertByDistanceStable | src/components/FoodTruck.tsx:89 | at every distance, insertion places the new entry before the entries already at that distance |
| Ranking.SortByDistanceStable | src/components/FoodTruck.tsx:89 | at every distance, the sorted list holds the entries at that distance in input order |
| Ranking.NearestPrefix | src/components/FoodTruck.tsx:89-90 | cutting a sorted list leaves out only entries at least as far as every entry kept |
| Page.QueryController.constructor | src/components/FoodTruck.tsx:25-38 | the initial inputs (empty filter, empty queries, "nameOrAddress" view) with both lists up to date |
| Page.QueryController.Recompute | src/components/FoodTruck.tsx:42-93 | after the two effects both lists equal the filters applied to the current inputs |
| Page.QueryController.ReceiveFetchState | src/components/FoodTruck.tsx:17-21 | new records and loading flag from the hook; both lists recomputed; the query inputs untouched |
| Page.QueryController.SetStatusFilter | src/components/FoodTruck.tsx:25 | the shared status filter is replaced and both lists recomputed; nothing else changes |
| Page.QueryController.SetNameOrAddressQuery | src/components/FoodTruck.tsx:26 | the text query is replaced and both lists recomputed; nothing else changes |
| Page.QueryController.SetGeolocationQuery | src/components/FoodTruck.tsx:64-68 | the geolocation query is replaced and the lists recomputed; a query that is not a pair empties the geolocation list |
| Page.QueryController.SetViewOption | src/components/FoodTruck.tsx:28 | the view option is replaced; the inputs and lists stay consistent |
| Page.QueryController.Displayed | src/components/FoodTruck.tsx:172-188 | nothing while loading; otherwise the text list exactly when the view option is "nameOrAddress", and the geolocation list for any other value |
| SidebarState.Sidebar.constructor | src/components/Sidebar.tsx:34-62 | both remembered filters start empty and the flag down; after the first sync, geolocation mode starts with ["APPROVED"]; the page's records, loading flag, queries and view option are unchanged |
| SidebarState.Sidebar.SyncStatusFilter | src/components/Sidebar.tsx:43-62 | name/address mode pushes its own filter; the first geolocation visit sets that filter and the shared filter to ["APPROVED"] and raises the flag; later visits push the stored geolocation filter; the flag is never lowered and the name/address filter never touched |
| SidebarState.Sidebar.SelectView | src/components/Sidebar.tsx:96-113 | a radio click sets the view option, then the sync runs with the three outcomes above |
| SidebarState.Sidebar.HandleStatusFilterChange | src/components/Sidebar.tsx:66-73 | only the active mode's remembered filter is replaced; the other mode's is unchanged; the shared filter becomes the new filter; the flag is unchanged |
| SidebarState.Sidebar.ToggleStatus | src/components/Sidebar.tsx:121-134 | a checkbox click sets the shared filter to the toggle of the active mode's filter; the clicked status flips membership; the other mode's filter and the visited flag are unchanged |
| StatusFilter.Without | src/components/StatusFilter.tsx:22 | the status is gone, the result is a subsequence, and every other status keeps its count |
| StatusFilter.Toggle | src/components/StatusFilter.tsx:20-26 | the status is in the result exactly when it was not before; other statuses keep membership; an absent status is appended at the end; a present one is removed everywhere with the rest kept in order |
| StatusFilter.ToggleTwiceRestores | src/components/StatusFilter.tsx:20-26 | toggling an absent status twice gives back the original filter |
| StatusFilter.Label | src/components/StatusFilter.tsx:43 | same length, first character kept, every later character lower-cased |
| StatusFilter.LabelOfApproved | src/components/StatusFilter.tsx:43 | "APPROVED" is labelled "Approved" |
| StatusFilter.SortStatuses | src/components/StatusFilter.tsx:33 | the caller's array ends sorted and is a permutation of what it held |
| StatusFilter.InsertIntoSorted | src/components/StatusFilter.tsx:33 | one insertion step extends the sorted prefix by one entry and keeps the array's contents |
| StatusFilter.Render | src/components/StatusFilter.tsx:33-46 | the options are sorted in place; one checkbox per status, checked exactly when the status is in the filter, with its label |
| FoodTruckData.StatusKeys | src/hooks/useFoodTrucks.tsx:37 | no empty key; every record's non-empty canonical status is a key; every key comes from a record |
| FoodTruckData.Dedupe | src/hooks/useFoodTrucks.tsx:35-39 | no duplicates, and the same members as the input |
| FoodTruckData.DedupeFirstOccurrenceOrder | src/hooks/useFoodTrucks.tsx:35-39 | the distinct keys are ordered by their first occurrences |
| FoodTruckData.DistinctStatuses | src/hooks/useFoodTrucks.tsx:35-39 | no duplicates, no empty status, every non-empty record status present, nothing that no record has |
| FoodTruckData.StatusKeysFollowRecords | src/hooks/useFoodTrucks.tsx:37 | the keys keep record order: a key whose first occurrence comes earlier among the keys first occurs in an earlier record |
| FoodTruckData.DistinctStatusesFollowRecords | src/hooks/useFoodTrucks.tsx:35-39 | of two statuses in `allStatus`, the one listed first first occurs in an earlier record |
| FoodTruckData.FetchedStatuses | src/hooks/useFoodTrucks.tsx:35-39 | an approved and a pending record give ["APPROVED", "PENDING"] |
| FoodTruckData.FoodTruckStore.constructor | src/hooks/useFoodTrucks.tsx:16-18 | loading, with no records and no statuses |
| FoodTruckData.FoodTruckStore.FetchFoodTrucks | src/hooks/useFoodTrucks.tsx:23-47 | a valid response stores the records unchanged and their distinct statuses; a schema failure or request error stores nothing; loading ends false on every path |
| FoodTruckData.LoadOnStartup | src/hooks/useFoodTrucks.tsx:15-50 | from mount to the end of the one fetch: records and statuses on success, both empty on either failure, never loading afterwards |
| Coordinates.DigitRun | components/SearchByGeolocation.tsx:31 | the leading digits of a text: all digits, a prefix, and followed by a non-digit or nothing |
| Coordinates.DigitRunOf | components/SearchByGeolocation.tsx:31 | a digit string followed by a non-digit is exactly the leading run |
| Coordinates.Value | components/SearchByGeolocation.tsx:23 | the number a numeral denotes: its sign follows the minus sign, and its whole digits give its integer part |
| Coordinates.FractionValue | components/SearchByGeolocation.tsx:23 | the digits after the point are worth at least 0 and less than 1 |
| Coordinates.ScanUnsigned | components/SearchByGeolocation.tsx:23 | a numeral is read exactly when the text starts with a digit or with a point and a digit; what is read is a well-formed unsigned numeral whose text is a prefix of the input |
| Coordinates.ParsePrefix | components/SearchByGeolocation.tsx:23 | a numeral is read exactly when a number starts the text after an optional sign; the sign and the numeral fit in the text |
| Coordinates.ParseFloat | components/SearchByGeolocation.tsx:23-24 | `parseFloat` gives a number exactly when a number starts the text, and NaN otherwise |
| Coordinates.NumberOf | components/SearchByGeolocation.tsx:50 | `Number("")` is 0; a number from `Number` on non-empty text is the number `parseFloat` gives |
| Coordinates.NumberRejectsTrailing | components/SearchByGeolocation.tsx:50 | `Number` is NaN for any numeral followed by text that cannot extend it, though `parseFloat` reads the numeral |
| Coordinates.ParseNumeral | components/SearchByGeolocation.tsx:23 | reading a numeral's text followed by anything that cannot extend it gives that numeral back |
| Coordinates.NumberOfText | components/SearchByGeolocation.tsx:50 | `Number` of a numeral's text is the numeral's value |
| Coordinates.ReadsNumeral | components/SearchByGeolocation.tsx:23 | both readers give a numeral's value for its text |
| Coordinates.IsValidCoordinate | components/SearchByGeolocation.tsx:22-28 | valid exactly when `parseFloat` gives a number within [-90, 90] for a latitude or [-180, 180] for a longitude, bounds included |
| Coordinates.FindPointDigit | components/SearchByGeolocation.tsx:31 | finds the leftmost point that is followed by a digit, or reports that there is none |
| Coordinates.HasThreeDecimals | components/SearchByGeolocation.tsx:30-33 | holds exactly when the leftmost point followed by a digit is followed by at least three digits |
| Coordinates.CheckCoordinatesAsWritten | components/SearchByGeolocation.tsx:35-51 | the search as written: the range warning whenever a text fails the range check; for texts in range, the precision warning when either lacks three decimals and acceptance otherwise; the accepted values are `Number` of each text and may be NaN |
| Coordinates.AsWrittenSubmitsNaN | components/SearchByGeolocation.tsx:50 | ("40.712x", "-74.006") passes both checks and is submitted with a NaN latitude |
| Coordinates.CheckCoordinates | components/SearchByGeolocation.tsx:35-51 | the corrected search: the range warning whenever a text fails the range check; for texts in range, the precision warning exactly when either lacks three decimals; texts in range with three decimals that `Number` cannot read get the "valid latitude and longitude values" warning; acceptance only of non-empty texts that `Number` reads as in-range values with three decimals |
| Coordinates.CheckCoordinatesAgrees | components/SearchByGeolocation.tsx:38-50 | the corrected search warns exactly as written, accepts only what the written one accepts with the same numbers, and departs only where the written one would submit NaN, refusing that text with the "valid latitude and longitude values" warning |
| Coordinates.AcceptsThreeDecimals | components/SearchByGeolocation.tsx:35-51 | ("40.712", "-74.006") is accepted as the pair [40.712, -74.006] |
| Coordinates.RejectsTrailingLetter | components/SearchByGeolocation.tsx:22-50 | ("40.712x", "-74.006"), which the written check submits with a NaN latitude, gets the "valid latitude and longitude values" warning from the corrected check |
| Coordinates.PrecisionWarningCase | components/SearchByGeolocation.tsx:43-47 | ("40.71", "-74.00") is in range but has two decimals, so both checks give the precision warning |
| Coordinates.RangeCases | components/SearchByGeolocation.tsx:25-26 | a latitude of 100 and a longitude of -200 are rejected; 90 and -180 are accepted |
| Coordinates.PrecisionCases | components/SearchByGeolocation.tsx:30-33 | "40.71" and "-74.00" fail the decimals check, "40.712" passes, and "1.5.123" fails because only the first fraction counts |
| Coordinates.RangeWarningFirst | components/SearchByGeolocation.tsx:38-48 | text failing both checks gets the "valid latitude and longitude" warning |
| Coordinates.ReadsTrailingLetter | components/SearchByGeolocation.tsx:23 | `parseFloat("40.712x")` is 40.712 while `Number("40.712x")` is NaN |
| GeoSearch.GeolocationSearch.constructor | components/SearchByGeolocation.tsx:16-18 | the inputs and the warning start empty; the refill then shows a pair already in the query |
| GeoSearch.GeolocationSearch.RefillFromQuery | components/SearchByGeolocation.tsx:62-68 | when both inputs are empty and the query holds a pair, the inputs get the texts of its numbers; otherwise nothing changes; afterwards the refill has nothing left to do |
| GeoSearch.GeolocationSearch.SetLat | components/SearchByGeolocation.tsx:81 | the latitude input takes the typed text, unless emptying it triggers the refill |
| GeoSearch.GeolocationSearch.SetLon | components/SearchByGeolocation.tsx:92 | the longitude input takes the typed text, unless emptying it triggers the refill |
| GeoSearch.GeolocationSearch.HandleSearch | components/SearchByGeolocation.tsx:35-51 | the warning is empty exactly when the pair is accepted; a rejection sets its one warning and leaves the page unchanged; an acceptance sets the query to the two numbers; the inputs keep their texts |
| GeoSearch.GeolocationSearch.HandleClear | components/SearchByGeolocation.tsx:53-58 | inputs, warning and query are emptied, and with the query the geolocation list |

## Left out

- The haversine distance is a function parameter (`Filters.Distance`). Its code is not part of this model, and it is floating-point. Nothing is proved about its values.
- Writing a number back into an input (`String(n)`) is the `toText` parameter of `GeoSearch.GeolocationSearch`. The model assumes only that its text is not empty.
- The HTTP request, the endpoint URL, the `console.error` calls and the Zod validation are outside the model. `FoodTruckData.FetchOutcome` gives only their outcome: records, a schema failure or a request error.
- The record's fields follow the schema's field list. `applicant`, `status`, `latitude` and `longitude` are `Option`s, because the filters test them for absence. The schema itself would reject such records.
- Rendering, layout, the resize listener and the spinners are left out, as are the list and name/address search components and the context wiring.
- React's scheduling of effects and re-renders is replaced by explicit synchronous steps. Each setter recomputes what its effect would.
- The sidebar's unmount is not modelled as a step. An unmount resets the `hasVisitedGeolocation` ref and both per-mode filters; a fresh mount is `SidebarState.Sidebar.constructor`. The geolocation panel unmounts on every switch to name/address mode (src/components/Sidebar.tsx:118-137) and loses its inputs and warning; the next switch back is a fresh `GeoSearch.GeolocationSearch.constructor`, which starts empty and refills the inputs from a pair already in the query.
- Coordinates.ParseFloat and Coordinates.NumberOf read only the plain decimal grammar (`sign? digits ('.' digits?)?` or `sign? '.' digits`), as exact rationals. Exponents, `Infinity`, hexadecimal forms, surrounding white space and floating-point rounding are not modelled. Like `parseFloat`, the reader takes the longest numeric prefix; like `Number`, `NumberOf` needs the whole text and reads "" as 0.
- Ascii.ToLower and Ascii.ToUpper map ASCII letters only; Unicode case mapping is left out.
- Filters.MatchesQuery, Filters.KeepMatchingText and Schema.CanonicalStatus inherit the ASCII-only case mapping: a non-ASCII letter is matched and upper-cased as it stands, where the code would fold its case.
- A `char` is a Unicode scalar value, not a UTF-16 code unit. `Ascii.LexLe` (the order of `sort()`) and `StatusFilter.Label` (`charAt(0)`) agree with the code only on text without characters above U+FFFF.
- GeoSearch.GeolocationSearch.HandleSearch uses the corrected check `Coordinates.CheckCoordinates`, because the page's query holds numbers and cannot hold NaN. The code as written is `Coordinates.CheckCoordinatesAsWritten` (see Findings).

## Findings

| source | as written | input that shows it | evidently intended | confidence | as-written member | corrected member |
|---|---|---|---|---|---|---|
| components/SearchByGeolocation.tsx:22-50 | the checks read the text with `parseFloat`, which takes the numeric prefix, but the query is built with `Number`, which needs the whole text | latitude "40.712x", longitude "-74.006": both checks pass and the query becomes [NaN, -74.006] | text that is not a number as a whole is refused with the "valid latitude and longitude values" warning, so the value checked is the value submitted | not executed | Coordinates.AsWrittenSubmitsNaN | Coordinates.CheckCoordinates |
