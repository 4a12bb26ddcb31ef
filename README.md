# flight-search-engine, modelled in Dafny

This project models the logic of a small flight-search web application.
A user searches flights by origin, destination and date. The server route
validates the query, fetches offers from the Amadeus provider (cached
OAuth token) and normalises them into flat `Flight` records. In the
browser, a hook session tracks loading and error state. A filter/sort
engine derives price bounds, filters by stops, price range and airlines,
and sorts stably by price, duration, departure or airline. The page
component hydrates a search from the URL once, writes the search and
filters back into the URL, and derives the chart data, airline list and
result flags. The helpers modelled alongside are `formatDuration`, the
price chart grouping, the sort selector's `key:order` encoding and the
price filter's clamping.

Modules follow the source files:

| module | source |
|---|---|
| `FilteredFlights` (class `FilterEngine`), `FlightSort`, `Patterns` | `src/hooks/useFilteredFlights.ts` |
| `HomeClient` (class `UrlHydration`), `UrlParams` | `src/app/HomeClient.tsx` |
| `FlightsSession` (class `Session`) | `src/hooks/useFlights.ts` |
| `Formatters` | `src/lib/formatters.ts` |
| `PriceChart` | `src/lib/priceChart.ts` |
| `NormalizeFlights` | `src/lib/normalizeFlights.ts` |
| `SearchRoute` | `src/app/api/flights/search/route.ts` |
| `Amadeus` (class `TokenCache`) | `src/lib/amadeus.ts` |
| `SortSelect` | `src/components/SortSelect/SortSelect.tsx` |
| `PriceFilter` | `src/components/Filters/PriceFilter.tsx` |
| `FlightTypes`, `Strings`, `Seqs` | the shared records and the JavaScript built-ins they use |

State that the source updates in place is modelled as classes:

- the hook's `filters`/`sort` cells;
- `useFlights`' three cells;
- the hydration ref;
- the token cache's two module variables.

Algorithms that work step by step are methods with loops, each proved
against a specification function:

- the copy-then-sort of `sortFlights`, an in-place stable insertion sort
  on an `array`;
- the `forEach` grouping of `buildPriceChartData`;
- the `parts.push` of `formatDuration`;
- the successive `params.set` calls of the URL sync.

Inputs from the outside world are parameters:

- the clock (`now`);
- `new Date(..).getTime()` (an `epoch` function);
- the provider's and the token endpoint's answers;
- the `fetch` outcome of a search.

In five places the code does less than its names suggest, and the model follows the code:

- `searchFlights` has no sequence numbers and no cancellation. The reply
  that settles last decides the list, and the first reply to settle
  already ends loading (`FlightsSession.OverlappingSearches`).
- A failed search keeps the previous flights rather than clearing them
  (`FlightsSession.Session.CompleteSearch`).
- The filters written into the URL are never read back into the filter
  engine. Only the search itself is hydrated from the URL.
- The hook's clamp effect is guarded by a ref that nothing sets, so it
  never runs (`FilteredFlights.FilterEngine.Rerender`).
- `HomeClient` reads `lastSearch` and `isSuccess` from `useFlights`, which
  returns neither, so they are inputs of the `HomeClient` members.

## Model

| member | source | states |
|---|---|---|
| FilteredFlights.Prices | src/hooks/useFilteredFlights.ts:14 | one price per flight, position by position |
| FilteredFlights.MinOf | src/hooks/useFilteredFlights.ts:17 | the result is an element of the list and no element is smaller |
| FilteredFlights.MaxOf | src/hooks/useFilteredFlights.ts:18 | the result is an element of the list and no element is larger |
| FilteredFlights.PriceBounds | src/hooks/useFilteredFlights.ts:9-20 | {0,0} for no flights; otherwise min and max are prices of the list, every price lies between them, and min <= max |
| FilteredFlights.StopsTest | src/hooks/useFilteredFlights.ts:152-156 | keeps iff the filter is 'any', or it is 2 and the flight has at least 2 stops, or it is 0 or 1 and the stops are equal |
| FilteredFlights.PriceTest | src/hooks/useFilteredFlights.ts:159-164 | keeps iff min <= price <= max (inclusive at both ends) |
| FilteredFlights.AirlineTest | src/hooks/useFilteredFlights.ts:167-172 | keeps iff the selection is empty or contains the airline |
| FilteredFlights.FilterFlights | src/hooks/useFilteredFlights.ts:149-176 | the result is an order-preserving sub-list of the flights and every kept flight passes all three tests |
| FilteredFlights.FilterCounts | src/hooks/useFilteredFlights.ts:149-176 | a flight that passes is kept as many times as it occurs; one that fails is dropped entirely |
| FilteredFlights.Without | src/hooks/useFilteredFlights.ts:208 | removes every occurrence of the airline, keeps every other airline with all of its copies and in its order (a sub-list of the selection), and keeps a duplicate-free list duplicate-free |
| FilteredFlights.WithoutAbsent | src/hooks/useFilteredFlights.ts:208 | removing an airline that is not selected leaves the list unchanged |
| FilteredFlights.WithoutAppended | src/hooks/useFilteredFlights.ts:207-209 | removing an airline after appending it is the same as removing it from the original list |
| FilteredFlights.Toggled | src/hooks/useFilteredFlights.ts:201-212 | the airline is selected afterwards iff it was not before; if absent it is appended, if present the rest keep their order; other airlines are unaffected; no duplicates are introduced |
| FilteredFlights.ToggleTwice | src/hooks/useFilteredFlights.ts:201-212 | toggling twice restores membership; for an unselected airline it restores the exact list |
| FilteredFlights.Clamped | src/hooks/useFilteredFlights.ts:138-144 | the range is clamped into the bounds end by end, and a range already inside the bounds is unchanged |
| FilteredFlights.FilterEngine.constructor | src/hooks/useFilteredFlights.ts:95-113 | initial filters are the defaults for the bounds of the flights, and the sort is price ascending |
| FilteredFlights.FilterEngine.Sorted | src/hooks/useFilteredFlights.ts:180-183 | the sorted list is the stable sort of the filtered flights: a permutation of them, all drawn from the flights and passing the filter |
| FilteredFlights.FilterEngine.ResetOnNewSearch | src/hooks/useFilteredFlights.ts:117-130 | with a non-empty key and flights, resets the filters to the defaults for the current bounds and the sort to price ascending; otherwise changes nothing |
| FilteredFlights.FilterEngine.ClampOnBoundsChange | src/hooks/useFilteredFlights.ts:135-145 | does nothing unless the ref is set; otherwise only the price range changes, clamped into the bounds |
| FilteredFlights.FilterEngine.Rerender | src/hooks/useFilteredFlights.ts:117-145 | a new render runs the reset effect when its dependencies changed and then the clamp effect; with the ref unset the filters are exactly those after the reset |
| FilteredFlights.FilterEngine.SetStops | src/hooks/useFilteredFlights.ts:187-192 | only the stops field of the filters changes |
| FilteredFlights.FilterEngine.SetPriceRange | src/hooks/useFilteredFlights.ts:194-199 | only the price range changes, to {min, max} |
| FilteredFlights.FilterEngine.ToggleAirline | src/hooks/useFilteredFlights.ts:201-212 | only the airline selection changes, to its toggle, and it stays duplicate-free |
| FilteredFlights.FilterEngine.ResetFilters | src/hooks/useFilteredFlights.ts:214-220 | the filters become the defaults for the current bounds, independent of the old filters (so a second call changes nothing); sort is untouched |
| FilteredFlights.FilterEngine.SetSort | src/hooks/useFilteredFlights.ts:110-113 | only the sort changes |
| FilteredFlights.ExampleBounds | src/hooks/useFilteredFlights.ts:9-20 | prices 100, 200 and 300 give bounds {100, 300} |
| FilteredFlights.ExampleFilter | src/hooks/useFilteredFlights.ts:149-176 | with 'any' stops and no airlines the three example flights are kept exactly by their price test, in order |
| FilteredFlights.PriceRangeExample | src/hooks/useFilteredFlights.ts:149-176 | the range [150, 250] keeps only the 200 flight; the default filters keep all three |
| FilteredFlights.PriceRangeScenario | src/hooks/useFilteredFlights.ts:187-220 | through the engine: narrowing keeps one flight, a re-render with the same arguments keeps it, resetFilters restores all three |
| FlightSort.HoursCapture | src/hooks/useFilteredFlights.ts:57 | on "PT<h>H<m>M" the leftmost `(\d+)H` captures h |
| FlightSort.MinutesCapture | src/hooks/useFilteredFlights.ts:58 | on "PT<h>H<m>M" the leftmost `(\d+)M` captures m |
| FlightSort.ToMinutesHoursMinutes | src/hooks/useFilteredFlights.ts:56-60 | toMinutes("PT<h>H<m>M") is 60 h + m for any digit texts |
| FlightSort.ToMinutesMinutesOnly | src/hooks/useFilteredFlights.ts:56-60 | toMinutes("PT<m>M") is m (missing hours count 0) |
| FlightSort.ToMinutesNoDigits | src/hooks/useFilteredFlights.ts:57-59 | a text without digits counts 0 minutes |
| FlightSort.HoursMinutesExample | src/hooks/useFilteredFlights.ts:56-60 | "PT2H30M" is 150 minutes |
| FlightSort.MinutesExample | src/hooks/useFilteredFlights.ts:56-60 | "PT45M" is 45 minutes and "PT" is 0 |
| FlightSort.Utf16Units | src/hooks/useFilteredFlights.ts:77-78 | a character below U+10000 is one code unit equal to it; one above is a high surrogate followed by a low surrogate |
| FlightSort.UnitsDiffer | src/hooks/useFilteredFlights.ts:77-78 | two different characters differ in their first code unit, or are both surrogate pairs differing in the second |
| FlightSort.UnitsOfDistinctChars | src/hooks/useFilteredFlights.ts:77-78 | the encodings of two different characters differ whatever follows them |
| FlightSort.Utf16Injective | src/hooks/useFilteredFlights.ts:77-78 | different strings have different UTF-16 code units |
| FlightSort.UnitsLessIrreflexive | src/hooks/useFilteredFlights.ts:77-78 | code-unit order is irreflexive |
| FlightSort.UnitsLessTransitive | src/hooks/useFilteredFlights.ts:77-78 | code-unit order is transitive |
| FlightSort.UnitsLessTotal | src/hooks/useFilteredFlights.ts:77-78 | of two different code-unit sequences one is less than the other |
| FlightSort.SurrogateSortsFirst | src/hooks/useFilteredFlights.ts:77-78 | string `<` is code-unit order, not code-point order: "\u{1F600}Air" sorts before "\uFF21ir" although U+1F600 is above U+FF21 |
| FlightSort.StringLessIrreflexive | src/hooks/useFilteredFlights.ts:77-78 | JavaScript string `<`, which compares UTF-16 code units, is irreflexive |
| FlightSort.StringLessTransitive | src/hooks/useFilteredFlights.ts:77-78 | string `<` is transitive |
| FlightSort.StringLessTotal | src/hooks/useFilteredFlights.ts:77-78 | of two different strings one is less than the other |
| FlightSort.StringLessAsymmetric | src/hooks/useFilteredFlights.ts:77-78 | no two strings are each less than the other |
| FlightSort.StringNotLessTransitive | src/hooks/useFilteredFlights.ts:77-78 | "not greater" on strings is transitive |
| FlightSort.CompareLaws | src/hooks/useFilteredFlights.ts:45-80 | the comparator returns 0 exactly on equal keys, is antisymmetric, and "<= 0" is transitive |
| FlightSort.InsertPermutes | src/hooks/useFilteredFlights.ts:45-80 | one insertion step adds exactly the inserted flight |
| FlightSort.InsertSorted | src/hooks/useFilteredFlights.ts:45-80 | inserting into an ordered list keeps it ordered |
| FlightSort.InsertWithKey | src/hooks/useFilteredFlights.ts:45-80 | inserting places the flight after every flight with an equal key |
| FlightSort.SortSpecCorrect | src/hooks/useFilteredFlights.ts:43-82 | the specification sort is a permutation, ordered by the comparator, and stable: for every key value the flights with that key keep their order |
| FlightSort.InsertAt | src/hooks/useFilteredFlights.ts:45-80 | the array prefix of length i + 1 becomes the insertion of a[i] into the old prefix; the rest is untouched |
| FlightSort.OpenGap | src/hooks/useFilteredFlights.ts:45-80 | the elements greater than x are shifted one place right, leaving a gap at the position where x belongs |
| FlightSort.InsertionSort | src/hooks/useFilteredFlights.ts:45-80 | the array ends up as the specification sort of its old contents (airline names in UTF-16 code-unit order, as JavaScript's `<` compares them) |
| FlightSort.SortFlights | src/hooks/useFilteredFlights.ts:39-83 | the copy is sorted: it is the specification sort, a permutation of the input, ordered by key and direction (airline names in UTF-16 code-unit order), and stable for equal keys |
| Patterns.DigitRunEnd | src/hooks/useFilteredFlights.ts:57-58 | the end of the maximal run of digits starting at i |
| Patterns.GroupEndAt | src/hooks/useFilteredFlights.ts:57-58 | `(\d+)X` anchored at i matches exactly where it ends, and nowhere when it reports none |
| Patterns.FindGroup | src/hooks/useFilteredFlights.ts:57-58 | the leftmost position where `(\d+)X` matches, and none before it |
| Patterns.Capture | src/hooks/useFilteredFlights.ts:57-58 | the captured group is a non-empty run of digits |
| Patterns.CaptureIsLeftmost | src/hooks/useFilteredFlights.ts:57-58 | a match with no match before it is the one captured |
| Patterns.CaptureAbsent | src/hooks/useFilteredFlights.ts:57-58 | with no match the capture is absent (counted 0) |
| Patterns.FindPT | src/lib/formatters.ts:50 | the first "PT" at or after a position, and none before it |
| Patterns.MatchDuration | src/lib/formatters.ts:50 | no match iff the text holds no "PT"; each captured group is a non-empty run of digits |
| Formatters.DurationLabel | src/lib/formatters.ts:54-62 | "0m" exactly when both numbers are zero; an hours part exactly when hours are non-zero, and then it comes first as "<h>h"; non-zero minutes end the label as "<m>m"; the label is exactly "<h>h <m>m" (one space) with both parts non-zero, "<h>h" with zero minutes and "<m>m" with zero hours |
| Formatters.FormatDurationSpec | src/lib/formatters.ts:48-62 | a text without "PT" is returned unchanged |
| Formatters.FormatDuration | src/lib/formatters.ts:48-62 | the parts loop and join give exactly the label of the captured hours and minutes, or the input when nothing matches |
| Formatters.SameLabel | src/lib/formatters.ts:57-62 | the joined non-zero parts, with the "0m" fallback, are the label: hours first, one space, "0m" when both are zero |
| Formatters.MatchHoursMinutes | src/lib/formatters.ts:50 | "PT<h>H<m>M" captures both groups |
| Formatters.BothGroupsAt | src/lib/formatters.ts:50 | "PT" followed by an hours group and a minutes group captures both |
| Formatters.MatchHoursOnly | src/lib/formatters.ts:50 | "PT<h>H" captures only the hours |
| Formatters.MatchMinutesOnly | src/lib/formatters.ts:50 | "PT<m>M" skips the hours group and captures the minutes |
| Formatters.FormatHoursMinutes | src/lib/formatters.ts:48-62 | "PT<h>H<m>M" is labelled by the values of h and m |
| Formatters.FormatHoursOnly | src/lib/formatters.ts:48-62 | "PT<h>H" is labelled by h hours and 0 minutes |
| Formatters.FormatMinutesOnly | src/lib/formatters.ts:48-62 | "PT<m>M" is labelled by 0 hours and m minutes |
| Formatters.MinutesLeadingZero | src/lib/formatters.ts:54-55 | a leading zero in the minutes does not show |
| Formatters.ZeroHoursOmitted | src/lib/formatters.ts:59-62 | a zero hours part is dropped: "PT0H<m>M" reads as "PT<m>M" |
| Formatters.FormatExampleHoursMinutes | src/lib/formatters.ts:44 | "PT29H55M" is "29h 55m" |
| Formatters.FormatExampleHours | src/lib/formatters.ts:45 | "PT14H" is "14h" |
| Formatters.FormatExampleMinutes | src/lib/formatters.ts:46 | "PT45M" is "45m" |
| Formatters.FormatExampleLeadingZero | src/lib/formatters.ts:54-60 | "PT05M" is "5m" |
| Formatters.FormatExampleZero | src/lib/formatters.ts:62 | "PT0H0M" is "0m" |
| PriceChart.Airlines | src/lib/priceChart.ts:15-19 | the airline of each flight, position by position |
| PriceChart.PricesOf | src/lib/priceChart.ts:16-18 | an airline's price list is non-empty iff it occurs, and empty otherwise |
| PriceChart.ChartSpecAirlines | src/lib/priceChart.ts:13-25 | exactly one item per distinct airline, no other names, in order of first appearance; an empty input gives an empty chart |
| PriceChart.ChartSpecAverages | src/lib/priceChart.ts:21-25 | every average is the sum of that airline's prices divided by their count, and the count is at least one |
| PriceChart.GroupStep | src/lib/priceChart.ts:15-19 | one forEach step keeps the loop invariant: the keys are the distinct airlines in insertion order and each holds its prices |
| PriceChart.GroupMapAppend | src/lib/priceChart.ts:16-18 | one more flight appends its price to its own airline's list and changes no other list |
| PriceChart.GroupedChart | src/lib/priceChart.ts:21-25 | mapping the finished grouping's entries gives the specification chart |
| PriceChart.BuildPriceChartData | src/lib/priceChart.ts:12-26 | the loop and the entry mapping produce exactly the specification chart |
| PriceChart.ChartExample | src/lib/priceChart.ts:12-26 | Aero at 100 and 200 and Blue at 300 chart as Aero 150, Blue 300 |
| NormalizeFlights.CarrierName | src/lib/normalizeFlights.ts:20 | the dictionary name when the code is in the table, otherwise the code itself |
| NormalizeFlights.MapOffers | src/lib/normalizeFlights.ts:9-27 | succeeds iff every offer has a first itinerary with a segment, and then gives one flight per offer |
| NormalizeFlights.MapOffersFields | src/lib/normalizeFlights.ts:9-27 | each flight has the offer's id and price, the first itinerary's duration, segments minus one stops, the first departure, the last arrival and the carrier name of the first validating airline |
| NormalizeFlights.MapOffersPointwise | src/lib/normalizeFlights.ts:9-27 | the flight at each position is built from the offer at that position |
| NormalizeFlights.Normalize | src/lib/normalizeFlights.ts:5-28 | a response without `data` fails (a TypeError in the source) |
| NormalizeFlights.MissingCarriersAsEmpty | src/lib/normalizeFlights.ts:7 | a missing carrier dictionary behaves as an empty one |
| NormalizeFlights.MapOffersAppend | src/lib/normalizeFlights.ts:9-27 | mapping works offer by offer: the mapping of a concatenation is the concatenation of the mappings |
| NormalizeFlights.LaterItinerariesIgnored | src/lib/normalizeFlights.ts:10 | replacing the later itineraries changes nothing |
| NormalizeFlights.NormalizeExample | src/lib/normalizeFlights.ts:5-28 | a two-segment offer becomes a one-stop flight named from the dictionary |
| SearchRoute.LeadingSpaces | src/app/api/flights/search/route.ts:10-11 | the number of white-space characters at the front |
| SearchRoute.TrailingSpaces | src/app/api/flights/search/route.ts:10-11 | the number of white-space characters at the end |
| SearchRoute.Trim | src/app/api/flights/search/route.ts:10-11 | the result is the slice left after dropping white space at both ends, and it neither starts nor ends with white space |
| SearchRoute.TrimIdempotent | src/app/api/flights/search/route.ts:10-11 | trimming twice is trimming once |
| SearchRoute.UpperChar | src/app/api/flights/search/route.ts:10-11 | the result is not a lower-case letter, and non-letters are unchanged |
| SearchRoute.ToUpper | src/app/api/flights/search/route.ts:10-11 | character by character upper-casing, same length |
| SearchRoute.ToUpperIdempotent | src/app/api/flights/search/route.ts:10-11 | upper-casing twice is upper-casing once |
| SearchRoute.Validate | src/app/api/flights/search/route.ts:10-26 | 400 'Missing required parameters' iff a code trims to empty or is absent, or the date is absent or empty; otherwise 400 'Invalid IATA airport code' iff a normalised code is not three letters A-Z; otherwise accepted with the normalised codes and the verbatim date |
| SearchRoute.DateNotValidated | src/app/api/flights/search/route.ts:12-26 | the date's content never matters: any two non-empty dates get the same verdict |
| SearchRoute.DateBlind | src/app/api/flights/search/route.ts:14-26 | queries with the same normalised codes and non-empty dates agree on acceptance and on the rejection |
| SearchRoute.TrimExamples | src/app/api/flights/search/route.ts:10-11 | " eze " normalises to "EZE" and "jfk" to "JFK" |
| SearchRoute.ValidateAcceptsNormalised | src/app/api/flights/search/route.ts:10-26 | origin " eze ", destination "jfk" and a date are accepted as EZE and JFK |
| SearchRoute.ValidCodesAccepted | src/app/api/flights/search/route.ts:21-26 | codes that normalise to IATA form with a non-empty date are accepted |
| SearchRoute.ValidatePresenceFirst | src/app/api/flights/search/route.ts:14-19 | an empty date is reported as missing even when a code is malformed |
| SearchRoute.ValidateRejectsLongCode | src/app/api/flights/search/route.ts:21-26 | a four-letter code is rejected as an invalid IATA code |
| SearchRoute.Respond | src/app/api/flights/search/route.ts:7-56 | a rejection is answered with its 400 error; after validation, a failed token request, a rejected fetch or a body that is not JSON make the handler throw (even when the provider failed, since the body is read before `ok` is tested); a parsed reply that failed or has no `data` gives 200 with an empty list; otherwise the normalised flights, or a throw when an offer lacks an itinerary or segment |
| Amadeus.TokenCache.constructor | src/lib/amadeus.ts:1-2 | the cache starts with an empty token that expired at time 0 |
| Amadeus.TokenCache.GetAccessToken | src/lib/amadeus.ts:4-36 | the endpoint is asked iff the token is empty or now >= expiry; a hit returns the token unchanged; a successful refresh stores the new token with expiry now + 1000 * expires_in and returns it; a failure reports the error and leaves both fields as they were |
| Amadeus.FirstCallRefreshes | src/lib/amadeus.ts:1-9 | the first call always asks the endpoint |
| Amadeus.ReuseWithinLifetime | src/lib/amadeus.ts:5-9 | a token obtained at t1 for e seconds is served from the cache at t2 iff t2 < t1 + 1000 e |
| Amadeus.FailureKeepsState | src/lib/amadeus.ts:26-28 | after a failed refresh the next call asks again |
| FlightsSession.Session.constructor | src/hooks/useFlights.ts:11-13 | no flights, not loading, no error |
| FlightsSession.Session.BeginSearch | src/hooks/useFlights.ts:16-24 | loading on, error cleared, flights unchanged; the request carries origin, destination and date |
| FlightsSession.Session.CompleteSearch | src/hooks/useFlights.ts:26-38 | success (an empty list included) replaces the flights; any failure sets 'Unable to load flights' and keeps the flights; loading ends either way |
| FlightsSession.SingleSearch | src/hooks/useFlights.ts:15-39 | a whole search ends not loading, with the reply's flights and no error, or the old flights and the error |
| FlightsSession.OverlappingSearches | src/hooks/useFlights.ts:15-39 | with two searches in flight the first reply already ends loading, and the last reply to arrive decides the list |
| SortSelect.ParseKey | src/components/SortSelect/SortSelect.tsx:31-34 | a recognised key text is the text of that key |
| SortSelect.ParseOrder | src/components/SortSelect/SortSelect.tsx:31-34 | a recognised order text is the text of that order |
| SortSelect.Decode | src/components/SortSelect/SortSelect.tsx:30-37 | a decoded state re-encodes to the input text, unless the text holds more than one ':' (parts after the second are ignored, as destructuring does) |
| SortSelect.SplitJoin | src/components/SortSelect/SortSelect.tsx:31 | splitting at the only ':' and joining again gives the text back |
| SortSelect.DecodeEncode | src/components/SortSelect/SortSelect.tsx:31-36 | decoding the select value of any sort state gives that state back |
| SortSelect.OptionValues | src/components/SortSelect/SortSelect.tsx:58-61 | the option values are the encodings of the options' key and order |
| SortSelect.OptionsComplete | src/components/SortSelect/SortSelect.tsx:11-27 | eight options; the value of every sort state is among them; all values are distinct |
| SortSelect.OptionIndex | src/components/SortSelect/SortSelect.tsx:11-27 | every sort state is offered by an option |
| SortSelect.EncodeInjective | src/components/SortSelect/SortSelect.tsx:50 | different sort states have different select values |
| PriceFilter.DisplayedValues | src/components/Filters/PriceFilter.tsx:44-47 | each end is clamped into the bounds independently and only ever moves inwards (the shown range lies inside both the bounds and the selection); an in-bounds range is shown as it is |
| PriceFilter.UpdateRange | src/components/Filters/PriceFilter.tsx:49-54 | the emitted range lies within the bounds; each end is clamped independently |
| PriceFilter.UpdateRangeIdempotent | src/components/Filters/PriceFilter.tsx:49-54 | re-clamping an emitted range changes nothing |
| PriceFilter.Render | src/components/Filters/PriceFilter.tsx:21-47 | the disabled panel renders iff max <= min, and then it shows the price `min`; otherwise the displayed values |
| PriceFilter.Emitted | src/components/Filters/PriceFilter.tsx:21-116 | nothing is emitted iff max <= min; whatever is emitted lies within the bounds |
| PriceFilter.InputsEditOneEnd | src/components/Filters/PriceFilter.tsx:79-102 | the minimum input emits max(typed, min) with the displayed upper end; the maximum input emits the displayed lower end with min(typed, max) |
| PriceFilter.SliderInsideBounds | src/components/Filters/PriceFilter.tsx:114-116 | a slider move inside the bounds is emitted unchanged |
| HomeClient.SearchKey | src/app/HomeClient.tsx:34-36 | a key exactly when there is a last search |
| HomeClient.SearchKeyInjective | src/app/HomeClient.tsx:34-36 | with three-letter codes, equal keys mean equal searches |
| HomeClient.UrlSearch | src/app/HomeClient.tsx:119-127 | a search iff origin, destination and date are all present and non-empty, and then exactly the URL's values |
| HomeClient.UrlHydration.constructor | src/app/HomeClient.tsx:21 | the ref starts unset and no search has been issued |
| HomeClient.UrlHydration.Run | src/app/HomeClient.tsx:51-62 | the first run issues the URL's search if it names one and sets the ref whatever the outcome; later runs issue nothing; at most one search is ever issued |
| HomeClient.HydrationExample | src/app/HomeClient.tsx:51-62 | a full URL starts its search once, and a later run starts none |
| HomeClient.PickedNames | src/app/HomeClient.tsx:77-92 | the written names are picked from the seven possible names |
| HomeClient.PickedInOrder | src/app/HomeClient.tsx:83-89 | the names are picked in their fixed order, and 'stops'/'airlines' are skipped when defaulted |
| HomeClient.UrlPairsKeys | src/app/HomeClient.tsx:77-92 | names in order origin, destination, date, [stops], [airlines], minPrice, maxPrice, each once |
| HomeClient.UrlPairsDistinct | src/app/HomeClient.tsx:77-92 | each name appears once |
| HomeClient.UrlKeysDistinct | src/app/HomeClient.tsx:77-92 | the written names are distinct |
| HomeClient.UrlKeysOmit | src/app/HomeClient.tsx:83-89 | 'stops' is absent when the stop filter is 'any', 'airlines' when none is selected |
| HomeClient.SyncUrl | src/app/HomeClient.tsx:74-95 | writes nothing unless the search succeeded and there is a last search; otherwise the successive `set` calls give exactly the ordered pairs |
| HomeClient.SetsBuildPairs | src/app/HomeClient.tsx:77-92 | the four `set` calls on the initial parameters produce the ordered pairs |
| HomeClient.UrlPairsReadBack | src/app/HomeClient.tsx:77-92 | every written value reads back with `get`, and a defaulted filter reads back as absent |
| HomeClient.UrlPairsAt | src/app/HomeClient.tsx:77-92 | the position of every pair in the URL |
| HomeClient.AvailableAirlines | src/app/HomeClient.tsx:111-117 | empty unless the search succeeded; otherwise duplicate-free and holding exactly the airlines of the flights |
| HomeClient.AvailableAirlinesOrder | src/app/HomeClient.tsx:114 | the airlines are listed in order of first appearance |
| HomeClient.ResultsExclusive | src/app/HomeClient.tsx:100-101 | hasResults and hasNoResults never both hold, neither holds before a success, exactly one holds after it |
| HomeClient.ShowPriceFilter | src/app/HomeClient.tsx:149-156 | the price filter is mounted only with results and min < max |
| HomeClient.PriceFilterShownIffPricesDiffer | src/app/HomeClient.tsx:156 | with results, the filter is shown iff two flights have different prices |
| HomeClient.ChartData | src/app/HomeClient.tsx:103-109 | the chart of the filtered flights when there are results, otherwise empty |
| UrlParams.Keys | src/app/HomeClient.tsx:77-81 | the names of the pairs, in order |
| UrlParams.Get | src/app/HomeClient.tsx:54-56 | absent iff no pair has the name; otherwise the value of the first pair with it |
| UrlParams.GetAppend | src/app/HomeClient.tsx:54-56 | a lookup in a concatenation finds the first part's pair when there is one |
| UrlParams.Without | src/app/HomeClient.tsx:84-92 | no pair with the name remains, and every other lookup is unchanged |
| UrlParams.Set | src/app/HomeClient.tsx:84-92 | a new name is appended; afterwards the name reads back as the new value and every other name as before |
| UrlParams.SetProperties | src/app/HomeClient.tsx:84-92 | replacing the first pair and dropping later ones gives the set semantics |
| Strings.NatToString | src/app/HomeClient.tsx:84 | the shortest decimal text, whose value is the number |
| Strings.IntToString | src/app/HomeClient.tsx:91-92 | a '-' exactly for negative numbers, followed by the digits of the magnitude, with no leading zero: "0" is the only text that starts with '0', and a '-' is never followed by '0' |
| Strings.LeadingZeroIgnored | src/lib/formatters.ts:54-55 | a leading zero does not change a digit run's value |
| Strings.IndexOf | src/components/SortSelect/SortSelect.tsx:31 | the first position of the character, or the length when it is absent |
| Strings.Split | src/components/SortSelect/SortSelect.tsx:31 | at least one part, no part holds the separator, and joining the parts with it gives the text back |
| Strings.SplitPair | src/components/SortSelect/SortSelect.tsx:31 | splitting "a:b" gives [a, b] when neither part holds ':' |
| Seqs.Dedup | src/app/HomeClient.tsx:114 | duplicate-free, with exactly the elements of the input |
| Seqs.DedupFirstAppearance | src/app/HomeClient.tsx:114 | de-duplication keeps the order of first appearance |
| Seqs.SubsequenceMembers | src/hooks/useFilteredFlights.ts:150 | every element of a sub-list is in the list |

## Left out

- Rendering and JSX: layout, skeletons, the modal, the chart drawing, the flight list and cards, the stop filter buttons. They carry no logic beyond labels.
- `src/app/page.tsx` is not part of this model. It is an earlier draft of the page that calls the hook with one argument.
- `src/app/HomeClientWrapper.tsx` is not part of this model. Its all-three-present rule is the one `HomeClient.UrlSearch` states.
- The search form's own trim and upper-casing on submit is not modelled; the route does the same normalisation again, and that is modelled.
- Network I/O: `fetch`, `response.json()`, `router.replace` and the token endpoint call are parameters, i.e. a reply outcome, a refresh outcome, a token outcome or an upstream answer (each including its failure).
- The route's provider request construction (`url.search`, `adults`, `currencyCode`, `max`) is I/O and is not modelled; its outcome is `SearchRoute.Respond`'s upstream parameter.
- SearchRoute.Respond: requires every parsed offer to name a validating airline, for the reason given for `NormalizeFlights.Normalize` below.
- Percent-encoding (`URLSearchParams.toString()`): the URL is modelled as its ordered list of name/value pairs.
- The filters written to the URL are not read back into the filter engine by the source either, so no URL-to-filter round trip is stated.
- Floating point: prices, averages and `expires_in` are JavaScript numbers. All other values are integers here. The chart average is a `real`.
- NaN: the comparator's behaviour on it is not modelled.
- Dates: `new Date(..).getTime()` is an `epoch` parameter returning an integer. For an unparsable date the source gets NaN, and that case is not modelled (see the NaN line). `formatDateTime` and `formatTime` depend on `Intl` and are not modelled.
- Unicode: `trim()` and `toUpperCase()` are modelled on ASCII only. Case mappings such as 'ß' to "SS" are not. String `<` in the sort is modelled on UTF-16 code units, as JavaScript compares them.
- React scheduling: effects and memos are explicit method or function calls, such as `FilterEngine.Rerender` and `UrlHydration.Run`. Batching and render timing are not modelled.
- FilteredFlights.FilterEngine.Rerender: the clamp effect is modelled, but its ref is never set by the hook, so in every reachable state it does nothing.
- HomeClient: `lastSearch` and `isSuccess` are inputs, because the session hook returns neither.
- HomeClient: `isIdle` and `isError` are not used by the modelled logic and are left out.
- NormalizeFlights.Normalize: requires every offer to name at least one validating airline. With an empty list the source produces an `undefined` airline, which the model does not represent.
- NormalizeFlights.Normalize: only a missing `data` and an empty `itineraries` or `segments` list give a `None` result, for the source's TypeError. The `Offer`, `Itinerary` and `Segment` records always carry `id`, `price`, `duration`, `departure`, `arrival` and `validatingAirlineCodes`. So two absences are not modelled: a missing `price`, `departure`, `arrival` or `validatingAirlineCodes`, on which the source throws a TypeError (normalizeFlights.ts lines 16, 21, 23 and 24), and a missing `id` or `duration`, which the source copies as `undefined`.
- NormalizeFlights.Normalize: `Number(offer.price.total)` is taken as a given whole number, so text that is not a number is not modelled.
- SortSelect.Decode: returns `None` for text that is not a known key or order, where the source casts it unchecked. No option value produces such text (`SortSelect.DecodeEncode`).
- Formatters.FormatDuration: the digit runs have no width limit. Digit runs beyond `Number`'s safe integer range are not modelled.
- Amadeus.TokenCache.GetAccessToken: `expires_in` is taken as an integer number of seconds, and a parse failure of the token response is not modelled.
- `PRICE_TOLERANCE` in `src/lib/priceChart.ts` is not used by `buildPriceChartData`, so it is not modelled.
