# Property dashboard: listing filters, favourites and map markers

This project models the state logic of the property dashboard page
(`src/pages/Dashboard.tsx`), a React page that shows real-estate listings
on a map and in a list. It proves properties of that model in Dafny.

The parts modelled:

- **Listings and filter criteria.** A listing (`Listings.Property`, the record at
  src/pages/Dashboard.tsx:44-57) has an id, a title, a price, a
  location, coordinates, bedroom, bathroom and area counts, a category, an
  optional image and a favourite flag. The filter panel's criteria
  (`Listings.Filters`, the record at src/pages/Dashboard.tsx:59-67) are seven strings: the category ("all" means any
  category), minimum and maximum price, minimum and maximum area, minimum
  bedrooms and minimum bathrooms ("" means unset).
- **The active-filter badge.** An effect counts the criteria that are not at their default.
  It is modelled by `Listings.CountActive` against the reference
  `Listings.NonDefaultFields`, and stored by `DashboardPage.Dashboard.ComputeActiveCount`.
- **Applying the filters.** Starting from a copy of the master list, up to eight successive array
  filters run in the page's order: category, the six numeric bounds, then the
  search text. Each numeric bound is read with JavaScript's `parseInt`. The search
  keeps a listing when its lower-cased title or location contains the
  lower-cased query. `DashboardPage.RunPipeline` performs the stages one by one and is proved
  equal to the one-pass reference `Listings.Selected`. Everything proved about the
  filter is proved about `Selected`.
- **Reset and favourites.** Reset restores the default criteria, clears the query and shows every
  listing. Toggling a favourite flips the flag of the listings with a given id
  in both the master and the filtered list. Filtering ignores the flag, so
  the filtered list stays the filter of the master list.
- **Marker synchronisation.** An effect runs whenever the map or the filtered list changes. It
  detaches the previous markers and creates one marker per shown listing.
  The marker's position and title come from the listing, and its colour is
  pink for a favourite and indigo otherwise. When at least one marker exists,
  the effect fits the map to their positions and later clamps the zoom to
  at most 15. The descriptors are the pure `Markers.MarkerSpecs`. The
  map and the markers are objects (`DashboardPage.MapWidget`,
  `DashboardPage.Marker`) that the effect updates in place.
- **JavaScript semantics used by the filter.** `parseInt` follows section 19.2.5
  of ECMA-262: leading white space is skipped, then one sign, then a `0x`/`0X`
  prefix selects radix 16, then the longest run of digits is read. No digit
  gives `NaN`. The model also covers `Number.prototype.toString` for integers
below 10^21 in magnitude,
  `String.prototype.toLowerCase` and `String.prototype.includes` (module
  `EcmaScript`).

The page object is `DashboardPage.Dashboard`, a class with the page's state
variables as fields. Each setter and handler is a method that states its
whole new state. Its invariant `Valid()` says the filtered list is always
`Selected` of the master list under the criteria last applied, or reset.
Editing the panel or the search box changes the draft criteria only: the
page refilters only when the filters are applied (button or Enter key) or
reset.

**A bound that `parseInt` cannot read empties the list.** A set bound is
never skipped: when `parseInt` yields `NaN`, every comparison is false and
the list comes out empty (`Listings.SelectedWithUnparsableBound`).

## Model

| member | source | states |
|---|---|---|
| Sequences.Filter | src/pages/Dashboard.tsx:301-336 | The filter keeps at most the input's length, keeps only elements of the input that pass, and keeps every element that passes. |
| Sequences.FilterIsSubsequence | src/pages/Dashboard.tsx:301-336 | A filtered array is an order-preserving subsequence of its input. |
| Sequences.SubsequenceMultiset | src/pages/Dashboard.tsx:301-336 | A subsequence takes no element more often than the input holds it, so filtering never duplicates a listing. |
| Sequences.FilterFilter | src/pages/Dashboard.tsx:301-336 | Filtering by one predicate and then by another is filtering once by their conjunction. |
| Sequences.FilterStage | src/pages/Dashboard.tsx:303-336 | A stage that runs only when its field is set turns "the filter by the stages so far" into "the filter by the stages so far and this one when active". |
| Sequences.FilterMapped | src/pages/Dashboard.tsx:356-363 | Mapping by a function that never changes whether an element passes commutes with filtering. |
| Sequences.Mapped | src/pages/Dashboard.tsx:357-362 | `map` keeps the length and applies the function at every index. |
| Sequences.FilterKeepsAll | src/pages/Dashboard.tsx:301-336 | When every element passes, the filter returns the input unchanged. |
| Sequences.FilterDropsAll | src/pages/Dashboard.tsx:301-336 | When no element passes, the filter returns the empty array. |
| EcmaScript.ParseInt | src/pages/Dashboard.tsx:307-329 | The `parseInt` the bounds are read with: trim, optional sign, optional `0x` prefix, the longest digit run, `NaN` (`None`) when there is none. Its properties are the lemmas below. |
| EcmaScript.TrimStart | src/pages/Dashboard.tsx:308 | `parseInt`'s first step drops exactly the leading white-space and line-terminator characters: the result is a suffix whose first character is not white space. |
| EcmaScript.AtLeast | src/pages/Dashboard.tsx:307-329 | JavaScript `x >= y` against a `parseInt` result: true only when `y` is a number and `x` is at least it, false when `y` is `NaN`. |
| EcmaScript.AtMost | src/pages/Dashboard.tsx:307-329 | JavaScript `x <= y` against a `parseInt` result: true only when `y` is a number and `x` is at most it, false when `y` is `NaN`. |
| EcmaScript.ParseIntOfNumeral | src/pages/Dashboard.tsx:307-329 | `parseInt` of an integer's decimal numeral, negative ones included, reads exactly that integer when the text after it is empty or starts with a non-digit (and, after the numeral 0, not with `x` or `X`), as in `"2.5"` or `"1e3"`. |
| EcmaScript.IntToString | src/pages/Dashboard.tsx:485-506 | `num.toString()` for an integer below 10^21 in magnitude: its shortest decimal numeral, with a minus sign when negative; `parseInt` reads it back (`EcmaScript.ParseIntRoundTrip`). |
| EcmaScript.ParseIntRoundTrip | src/pages/Dashboard.tsx:485-506 | The bedroom and bathroom chips store `num.toString()`, and `parseInt` reads back that number. |
| EcmaScript.ParseIntNegative | src/pages/Dashboard.tsx:307-329 | A minus sign in front of a numeral that `parseInt` reads as `m` makes it read `-m`. |
| EcmaScript.ParseIntSkipsWhiteSpace | src/pages/Dashboard.tsx:307-329 | Leading white space does not change what `parseInt` reads. |
| EcmaScript.ParseIntWithoutDigits | src/pages/Dashboard.tsx:307-329 | A blank string, or one whose first character after the white space is neither a sign nor a decimal digit, parses to `NaN`. |
| EcmaScript.ToLowerCase | src/pages/Dashboard.tsx:331-336 | Lower-casing keeps the string's length. |
| EcmaScript.ToLowerCaseIdempotent | src/pages/Dashboard.tsx:331-336 | Lower-casing twice is lower-casing once. |
| EcmaScript.Includes | src/pages/Dashboard.tsx:333-334 | `includes` as a left-to-right scan; characterised by `EcmaScript.IncludesIffOccurs`. |
| EcmaScript.IncludesIffOccurs | src/pages/Dashboard.tsx:333-334 | `includes` holds exactly when the needle occurs at some offset of the haystack. |
| EcmaScript.MissingCharacterExcludes | src/pages/Dashboard.tsx:333-334 | A haystack lacking some character of the needle does not include the needle. |
| Listings.IsDefault | src/pages/Dashboard.tsx:155-161 | A field is at its default: the category at "all", any other field empty. |
| Listings.NonDefaultFields | src/pages/Dashboard.tsx:155-161 | The reference for the badge: the fields not at their default, in the counter's order. |
| Listings.CountActive | src/pages/Dashboard.tsx:154-161 | The seven conditional increments count exactly the fields that are not at their default. |
| Listings.NonDefaultFieldsExactly | src/pages/Dashboard.tsx:155-161 | A field is counted if and only if it is not at its default ("all" for the category, "" for the others). |
| Listings.ActiveCountBounds | src/pages/Dashboard.tsx:153-163 | The badge count is at most 7, and it is 0 exactly when the criteria equal the defaults. |
| Listings.PassesCategory | src/pages/Dashboard.tsx:303-305 | The category stage: it holds when the category is "all" or equals the listing's type. |
| Listings.PassesMinPrice | src/pages/Dashboard.tsx:307-309 | The minimum-price stage: unset, or the price is at least the parsed bound (false on `NaN`). |
| Listings.PassesMaxPrice | src/pages/Dashboard.tsx:311-313 | The maximum-price stage: unset, or the price is at most the parsed bound (false on `NaN`). |
| Listings.PassesMinArea | src/pages/Dashboard.tsx:315-317 | The minimum-area stage: unset, or the area is at least the parsed bound. |
| Listings.PassesMaxArea | src/pages/Dashboard.tsx:319-321 | The maximum-area stage: unset, or the area is at most the parsed bound. |
| Listings.PassesMinBedrooms | src/pages/Dashboard.tsx:323-325 | The bedroom stage: unset, or at least the parsed number of bedrooms. |
| Listings.PassesMinBathrooms | src/pages/Dashboard.tsx:327-329 | The bathroom stage: unset, or at least the parsed number of bathrooms. |
| Listings.MentionsQuery | src/pages/Dashboard.tsx:332-335 | The search callback: the lower-cased title or location includes the lower-cased query. |
| Listings.PassesSearch | src/pages/Dashboard.tsx:331-336 | The search stage: no query, or the listing mentions it. |
| Listings.Matches | src/pages/Dashboard.tsx:303-336 | A listing passes every stage. |
| Listings.Selected | src/pages/Dashboard.tsx:301-336 | The one-pass reference for the pipeline: the master list filtered by `Matches`. Its properties are the lemmas below, and `DashboardPage.RunPipeline` is proved equal to it. |
| Listings.SelectedMembership | src/pages/Dashboard.tsx:303-336 | A listing is shown if and only if it is in the master list, has the chosen category, meets every set bound inclusively (with the bound parsed by `parseInt`), and mentions the query when there is one. |
| Listings.SelectedIsSubsequence | src/pages/Dashboard.tsx:301-338 | The shown list is an order-preserving subsequence of the master list, holds no listing more often than the master list does, and is no longer. |
| Listings.SelectedDefaults | src/pages/Dashboard.tsx:301-338 | With the default criteria and no query, the pipeline returns the master list unchanged. |
| Listings.SelectedWithUnparsableBound | src/pages/Dashboard.tsx:307-329 | A set bound that `parseInt` reads as `NaN` empties the result. |
| Listings.SelectedIgnoresQueryCase | src/pages/Dashboard.tsx:331-336 | Lower-casing the query beforehand does not change the result, because the search lower-cases the query itself. |
| Listings.MatchesIgnoresFlag | src/pages/Dashboard.tsx:303-336 | No stage of the pipeline reads the favourite flag: changing it never changes whether a listing passes. |
| Listings.Toggled | src/pages/Dashboard.tsx:358 | The callback of the toggle's `map`: the listing with its flag flipped when its id matches. |
| Listings.ToggleIn | src/pages/Dashboard.tsx:357-362 | Toggling flips the favourite flag of exactly the listings with the id and leaves every other field and listing as it was. |
| Listings.ToggleKeepsIds | src/pages/Dashboard.tsx:356-363 | Toggling keeps the list's ids in order. |
| Listings.ToggleTwice | src/pages/Dashboard.tsx:356-363 | Toggling the same id twice restores the list exactly. |
| Listings.SelectedToggle | src/pages/Dashboard.tsx:356-363 | Filtering the toggled master list equals toggling the filtered list, so toggling both lists keeps them consistent. |
| Markers.PositionOf | src/pages/Dashboard.tsx:238 | The `{ lat, lng }` literal a marker is placed at, and (line 287) the point the bounds are extended with: the listing's own latitude and longitude. |
| Markers.FillColor | src/pages/Dashboard.tsx:245 | The fill is the favourite colour if and only if the listing is a favourite, and the default colour otherwise. |
| Markers.MarkerSpecs | src/pages/Dashboard.tsx:236-250 | One marker per shown listing, in order, at the listing's coordinates, with its title and the colour its favourite flag selects. |
| Markers.Positions | src/pages/Dashboard.tsx:285-288 | The bounds are extended by exactly the markers' positions, in order. |
| Markers.ClampZoom | src/pages/Dashboard.tsx:292-295 | The idle listener leaves the zoom, a real number, at most 15: it keeps a zoom of 15 or less and lowers a larger one to 15. |
| Markers.ClampZoomIdempotent | src/pages/Dashboard.tsx:292-295 | A second clamp changes nothing. |
| Markers.MarkersAfterToggle | src/pages/Dashboard.tsx:236-250 | After a favourite toggle the rebuilt markers keep their positions and titles, and a marker changes colour exactly when its listing has the toggled id. |
| SeedData.SeedListings | src/pages/Dashboard.tsx:91-148 | The four listings the page starts with, with their ids, titles, prices, locations, coordinates, counts, types, images and flags. |
| SeedData.SeedIdsDistinct | src/pages/Dashboard.tsx:91-148 | The four initial listings have distinct ids. |
| SeedData.CategoryExample | src/pages/Dashboard.tsx:303-305 | Choosing "apartment" keeps exactly the apartment of the first two listings. |
| SeedData.BedroomsExample | src/pages/Dashboard.tsx:323-325 | The chip "3" for bedrooms keeps exactly the four-bedroom house of the first two listings. |
| SeedData.SearchExample | src/pages/Dashboard.tsx:331-336 | Searching the initial listings for "Lambaré" keeps exactly the listing located in Lambaré. |
| DashboardPage.Narrow | src/pages/Dashboard.tsx:303-305 | A stage filters only when its field is set, and turns the filter of the master list by the earlier stages into the filter by those stages and this one. |
| DashboardPage.RunPipeline | src/pages/Dashboard.tsx:301-336 | The staged filters, each applied only when its field is set, return exactly `Selected` of the master list. |
| DashboardPage.MapWidget.constructor | src/pages/Dashboard.tsx:198-222 | A new map has its initial zoom and has not been fitted. |
| DashboardPage.MapWidget.FitBounds | src/pages/Dashboard.tsx:289 | Fitting records the points and takes the zoom the mapping service chose. |
| DashboardPage.MapWidget.ClampOnIdle | src/pages/Dashboard.tsx:292-295 | The idle listener replaces the zoom by its clamp and leaves the fitted points alone. |
| DashboardPage.Marker.constructor | src/pages/Dashboard.tsx:237-250 | A new marker carries its descriptor and is attached to the map. |
| DashboardPage.DetachAll | src/pages/Dashboard.tsx:232 | Every previous marker ends up off the map. |
| DashboardPage.CreateMarkers | src/pages/Dashboard.tsx:236-279 | One new marker per descriptor, in order, each attached and carrying its descriptor. |
| DashboardPage.Dashboard.Valid | src/pages/Dashboard.tsx:150 | The page's invariant: the filtered list is `Selected` of the master list under the criteria last applied or reset. It holds initially (line 150) and every method keeps it. |
| DashboardPage.Dashboard.constructor | src/pages/Dashboard.tsx:75-150 | Initial state: all listings shown, default criteria, empty query, a badge count of 0, no map and no markers. |
| DashboardPage.Dashboard.InitMap | src/pages/Dashboard.tsx:224 | Storing the created map changes nothing else. |
| DashboardPage.Dashboard.EditFilters | src/pages/Dashboard.tsx:415-504 | An edit in the panel replaces the draft criteria and does not refilter. |
| DashboardPage.Dashboard.SetSearchQuery | src/pages/Dashboard.tsx:643 | Typing in the search box replaces the draft query and does not refilter. |
| DashboardPage.Dashboard.ComputeActiveCount | src/pages/Dashboard.tsx:153-163 | The badge becomes the number of non-default fields, at most 7, and 0 exactly for the defaults. |
| DashboardPage.Dashboard.ApplyFilters | src/pages/Dashboard.tsx:300-340 | The filtered list becomes `Selected` of the master list under the current criteria and query, and nothing else changes. |
| DashboardPage.Dashboard.ResetFilters | src/pages/Dashboard.tsx:342-354 | The criteria return to the defaults, the query is cleared and the filtered list equals the master list again. |
| DashboardPage.Dashboard.ToggleFavorite | src/pages/Dashboard.tsx:356-363 | Both lists are toggled, the filtered list keeps its ids, and the filtered list is still the filter of the toggled master list. |
| DashboardPage.Dashboard.SyncMarkers | src/pages/Dashboard.tsx:229-297 | Without a map nothing happens. Otherwise the old markers are detached and one fresh attached marker per shown listing replaces them. A non-empty list also fits the map to the listings' positions and clamps the zoom to at most 15. |

## Left out

- The login page, the application shell, the property card and the type declarations (`src/pages/Login.tsx`, `src/App.tsx`, `src/components/`, `src/types/`) are not part of this model. They hold none of the filter logic.
- Loading the map script, the API key and the map's options are not modelled (they are I/O with the mapping service). `DashboardPage.MapWidget` keeps only the zoom and the fitted points.
- Centring the map on the user's location (geolocation) is not modelled, because it is I/O.
- The info windows, their content and the click handler are not modelled. No claim is made that at most one popup is open: the handler closes only the popups of the markers captured from the previous render, so two markers of the same render can both be open.
- The view mode, the loading flag, the panel's visibility and the mobile-only closing of the panel after an apply are not modelled, because they are presentation state.
- JSX rendering, styling and the list view's cards are not modelled.
- React's scheduling is not modelled. The effects and handlers are explicit method calls; the caller runs `ComputeActiveCount` after a criteria change and `SyncMarkers` after a map or list change, as React would.
- DashboardPage.MapWidget.ClampOnIdle: the one-shot idle listener runs right after the fit rather than asynchronously. `fittedZoom`, the zoom the mapping service picks for the bounds, is a parameter.
- Markers.PositionOf: coordinates are JavaScript numbers and are modelled as `real`s that are only carried along. The `LatLngBounds` object is reduced to the list of points it is extended by.
- SeedData.SeedListings: the source file's accented seed strings appear as UTF-8 bytes mis-read as Mac Roman (`Asunci√≥n`, `Lambar√©`); the model reads them as the UTF-8 letters they encode (ó, é, í, Á), and `SeedData.SearchExample` relies on that reading.
- EcmaScript.IntToString: models `Number.prototype.toString` only for integers below 10^21 in magnitude. From 10^21 up JavaScript prints exponent notation (`"1e+21"`), which `parseInt` reads as 1, so `EcmaScript.ParseIntRoundTrip` holds in JavaScript only below that bound. The page converts only the chip values 1 to 5.
- Prices, areas and room counts are integers; JavaScript numbers are doubles. `parseInt` results beyond 2^53 lose precision in JavaScript, and the model's integers do not.
- EcmaScript.ToLowerCase: lower-cases only ASCII and Latin-1 capitals (U+00C0..U+00DE except U+00D7). The full Unicode case mapping and UTF-16 code units are not modelled.
- Listings.Property: the optional `isFavorite` is a boolean. An absent flag reads as false, which is how the page treats it at every read.
- DashboardPage.Dashboard.constructor: takes the initial listings as a parameter; the page's four literal listings are `SeedData.SeedListings()`.
