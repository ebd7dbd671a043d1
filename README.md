# Zanzibar fisheries dashboard — a Dafny model of its data core

This project models, in Dafny, the parts of the Zanzibar small-scale fisheries dashboard that
decide what data is shown:

- the client data service (`src/services/dataService.js`):
  - the API base URL;
  - the health check;
  - the five-minute response cache `withCache`;
  - the `getCatchData` flow, which transforms records into an all-sites series or a single-site series;
  - the district helper.
- the API server's `/api/cpue` handler (`api/server.js`):
  - validation of the `landingSites` parameter against the 29-site allow-list;
  - the query, taken as an input;
  - the coercion of non-numeric `cpue`/`catch` to `null`;
  - the CORS origin setting.
- the effort map (`src/components/charts/Map.js`):
  - the table of hour ranges;
  - the legend's range selection, which can never become empty;
  - the filtering of grid cells.
- the memoised time-series generator, with its insertion-ordered cache of at most 101 entries,
  and `formatNumber` (`src/utils/dataUtils.js`).
- the two pure computations of the export script (`scripts/exportData.js`):
  - the sorted, duplicate-free landing-site list;
  - the masking of credentials in the database URI.

Network calls, the database, the clock and `Math.random` are not modelled. Their outcomes come in
as parameters:
- the health result;
- the `/cpue` response or thrown message;
- the query result;
- clock readings;
- random draws.

Stateful pieces are classes whose methods state their whole new state:
- the response cache `DataService.ResponseCache`;
- the legend selection `EffortMap.RangeSelection`;
- the generator cache `DataUtils.SeriesMemo`.

The all-sites aggregation is a method with the source's loop over the records. It is proved
against a declarative description, `AllSites.IsAllSitesSeries`, and at most one series meets
that description.

Modules, one file each:
- `Wrappers`: Option and Result.
- `JsValues`: JavaScript values, property access and the environment.
- `CatchRecords`: records, points, the stable date sort and the single-site series.
- `AllSites`: the all-sites series.
- `DataService`
- `ApiServer`
- `EffortMap`
- `DataUtils`
- `ExportData`

Facts about the code that the model keeps:
- `withCache` has no size bound, no eviction and no fallback to a stale entry. An error propagates
  and nothing is stored.
- The all-sites series averages `cpue` over the non-null values. It divides the sum of the non-null
  `catch` values by the number of all records at that date.
- The generator's cache evicts its oldest entry when it holds more than 100 entries.

## Model

| member | source | states |
|---|---|---|
| JsValues.GetProperty | src/services/dataService.js:71 | property access throws exactly on `null`/`undefined`; on an object it returns the field when present and `undefined` when absent; any non-undefined result is the object's own field |
| DataService.BaseUrl | src/services/dataService.js:2-13 | production with a `VERCEL_URL` gives `https://<url>/api`, production without it gives `/api`; otherwise `REACT_APP_API_URL` if set, else `http://localhost:3001/api` |
| DataService.ProductionUrlEndsWithApi | src/services/dataService.js:4-9 | in production the base URL always ends in `/api` |
| DataService.CheckServerHealth | src/services/dataService.js:68-76 | healthy if and only if the call succeeded with an object whose `status` is the string `ok`; every throw gives false |
| DataService.ResponseCache.constructor | src/services/dataService.js:80 | the cache starts empty |
| DataService.ResponseCache.WithCache | src/services/dataService.js:83-96 | an entry younger than 300000 ms is returned without calling the fetch and nothing changes; otherwise the fetch runs once and its result is returned; a success is stored under the key with the later clock reading, every other key unchanged; a thrown fetch stores nothing |
| DataService.RepeatedCalls | src/services/dataService.js:83-96 | two calls on one key: within the lifetime after a success the fetch ran once and both calls return the first value; after the lifetime, or after a failure, it ran twice |
| DataService.FetchCpue | src/services/dataService.js:108-121 | the fetch succeeds exactly when the response is an array, with those records; a non-array is `Invalid response format`; an API error passes through |
| DataService.ProcessCatchData | src/services/dataService.js:125-129 | for `all` the result is the all-sites series of the data, for any other site its single-site series |
| DataService.GetCatchData | src/services/dataService.js:99-134 | every error carries the `Failed to fetch catch data: ` prefix; unhealthy gives the unavailability message and leaves the cache alone; a fresh hit processes the cached records; a miss processes the fetched records and caches them under `catch-<site>` or reports the fetch error without caching |
| DataService.ReplaceFirst | src/services/dataService.js:189 | a one-character string pattern replaces only its first occurrence, every other character kept, length unchanged |
| DataService.DistrictData | src/services/dataService.js:186-192 | id is the site, bounds the Zanzibar centre, the label has the site's length, its first character upper-cased and only the first later `_` turned into a space |
| CatchRecords.InsertByDate | src/services/dataService.js:182 | insertion keeps the multiset of points |
| CatchRecords.InsertSorted | src/services/dataService.js:182 | insertion into a date-sorted list keeps it sorted |
| CatchRecords.InsertWithDate | src/services/dataService.js:182 | insertion puts a point after all points of its own date: the per-date order is kept |
| CatchRecords.InsertWithDatePast | src/services/dataService.js:182 | the step where the inserted point moves past an earlier-dated one keeps every date's points in order |
| CatchRecords.SortByDate | src/services/dataService.js:182 | the sort result is ordered by date and is a permutation of its input |
| CatchRecords.SortByDateStable | src/services/dataService.js:182 | the sort is stable: the points of each date keep their relative order |
| CatchRecords.SortByDateDistinct | src/services/dataService.js:170 | sorting keeps dates distinct |
| CatchRecords.SortedDistinctIsStrict | src/services/dataService.js:170 | a sorted list without repeated dates is strictly increasing |
| CatchRecords.SortSpecIsUnique | src/services/dataService.js:182 | two date-sorted lists with the same points of each date, in the same order, are equal: the stable sort's result is unique |
| CatchRecords.SitePoints | src/services/dataService.js:175-181 | the filter and map keep exactly the points of the site's records |
| CatchRecords.SitePointsSingle | src/services/dataService.js:175-181 | one record gives its point exactly when its landing site is the selected one |
| CatchRecords.SitePointsAppend | src/services/dataService.js:175-181 | the filter and map distribute over concatenation, so each record of the site gives one point, in record order |
| CatchRecords.SingleSiteSeries | src/services/dataService.js:174-183 | the single-site series is date-sorted, has one point per record of the site, holds exactly those points, and keeps the record order within each date |
| AllSites.TotalsOfStep | src/services/dataService.js:153-161 | one loop step adds a record's non-null `cpue` and `catch` to its date's totals and counts it |
| AllSites.TotalsOfAbsent | src/services/dataService.js:141 | a date no record carries has no values and no count |
| AllSites.CombinedStep | src/services/dataService.js:140-162 | after each record the map holds exactly the dates read so far, each with its totals |
| AllSites.FirstOccurrencesMembers | src/services/dataService.js:143-151 | the keys in insertion order are exactly the month dates of the data |
| AllSites.FirstOccurrencesDistinct | src/services/dataService.js:143-151 | the keys in insertion order hold no date twice |
| AllSites.AddToCombined | src/services/dataService.js:141-161 | the callback for one record adds its totals to its date, creating fresh totals and appending the date to the key order only when the date is new |
| AllSites.CombineByDate | src/services/dataService.js:138-162 | the `forEach` leaves a map holding exactly the month dates of the data, each with its totals, and the list of its keys in insertion order without repeats |
| AllSites.FinishAll | src/services/dataService.js:164-169 | one finished point per key, in the keys' insertion order |
| AllSites.AggregateAllSites | src/services/dataService.js:137-171 | returns one row per month date of the data, dates strictly increasing, `cpue` the mean of the date's non-null values or null, `catch` the sum of the non-null values over the number of all records at the date |
| AllSites.FinishIsRow | src/services/dataService.js:165-169 | the final map turns a date's totals into that date's row |
| AllSites.AllSitesRows | src/services/dataService.js:164-170 | sorting the finished rows of the complete map gives the all-sites series |
| AllSites.DatesOfMembers | src/services/dataService.js:141 | a date occurs in the series exactly when some record carries it |
| AllSites.DatedRecordsCounted | src/services/dataService.js:161 | every date that occurs has a positive record count |
| AllSites.AllSitesCatchNeverNull | src/services/dataService.js:168 | no all-sites row has a null `catch` |
| AllSites.RowsDeterminedByDates | src/services/dataService.js:164-170 | two strictly dated lists of rows with the same dates are equal |
| AllSites.AllSitesSeriesUnique | src/services/dataService.js:137-171 | at most one series meets the all-sites description |
| AllSites.TwoSitesAverage | src/services/dataService.js:137-171 | two records of one month with `cpue` 2.5 and 1.5 and `catch` 10 and null give one row with `cpue` 2.0 and `catch` 5.0 |
| ApiServer.FilterValidSites | api/server.js:137 | every kept site is on the allow-list, and nothing is kept exactly when no element is an allowed site string |
| ApiServer.FilterValidSitesIsSubsequence | api/server.js:137 | the filter keeps input order: its result is a subsequence of the input |
| ApiServer.FilterValidSitesKeepsDuplicates | api/server.js:137 | each allowed site appears as often as in the input, and a site not on the list never |
| ApiServer.ParseLandingSites | api/server.js:117-122 | a missing parameter cannot be parsed |
| ApiServer.CheckLandingSites | api/server.js:121-143 | a parse error gives `Invalid landing sites format`, a non-array `Landing sites must be an array`, and `No valid landing sites provided` exactly when no element is allowed; an array with an allowed site is accepted with the filtered list, and an accepted list is always that non-empty filtered list |
| ApiServer.NumberOrNull | api/server.js:160-161 | a number passes unchanged, every other value becomes null |
| ApiServer.NormaliseRecord | api/server.js:156-162 | a document's id, site and date are copied; `cpue` and `catch` are kept when they are numbers and null otherwise |
| ApiServer.NormaliseRecords | api/server.js:156-162 | one response record per document, in order, id, site and date copied, `cpue`/`catch` numbers kept and the rest null |
| ApiServer.NormaliseIdempotent | api/server.js:156-162 | normalising a normalised record again changes nothing |
| ApiServer.HandleCpue | api/server.js:115-172 | the records reply happens exactly when the sites are accepted and the query succeeds, and holds the normalised query result; a rejection is a 400 with its message; a query error is the 500 reply |
| ApiServer.RejectedBeforeDatabase | api/server.js:121-143 | a rejected request gets a 400 whatever the database would do |
| ApiServer.MissingParameterRejected | api/server.js:117-134 | with no `landingSites` parameter the reply is the 400 format error |
| ApiServer.GetCorsOrigins | api/server.js:51-69 | development allows `http://localhost:3000` only; production lists the GitHub Pages origin, then the Vercel URL when set, then the `*.vercel.app` pattern |
| EffortMap.BreaksContiguous | src/components/charts/Map.js:35-42 | the ranges start at 0, each ends where the next begins, and the last is unbounded |
| EffortMap.ContiguousOrdered | src/components/charts/Map.js:35-42 | in such a table an earlier range ends no later than a later one starts |
| EffortMap.ContiguousPartition | src/components/charts/Map.js:35-42 | such a table puts every value from its first minimum upward in exactly one range |
| EffortMap.BreaksPartition | src/components/charts/Map.js:35-42 | every non-negative number of hours lies in exactly one of the six ranges |
| EffortMap.WithoutRange | src/components/charts/Map.js:74 | the filter keeps exactly the ranges whose bounds differ from the toggled one |
| EffortMap.WithoutRangeSingle | src/components/charts/Map.js:74 | one range is dropped exactly when its bounds equal the toggled one's |
| EffortMap.WithoutRangeAppend | src/components/charts/Map.js:74 | the filter distributes over concatenation, so the remaining ranges keep their order and multiplicity |
| EffortMap.WithoutSelectedRange | src/components/charts/Map.js:69-74 | with distinct ranges, removing a selected one removes exactly one entry and keeps the rest distinct |
| EffortMap.WithoutAbsent | src/components/charts/Map.js:74 | removing a range that is not there changes nothing |
| EffortMap.WithoutDistinct | src/components/charts/Map.js:74 | removal keeps the ranges distinct |
| EffortMap.AddThenRemove | src/components/charts/Map.js:67-80 | toggling an unselected range on and then off restores the selection |
| EffortMap.LabelIgnored | src/components/charts/Map.js:69-74 | selection and removal compare `min` and `max` only, never the label |
| EffortMap.RangeSelection.constructor | src/components/charts/Map.js:46 | all six ranges are selected at first |
| EffortMap.RangeSelection.Toggle | src/components/charts/Map.js:67-80 | an unselected range is appended; the last selected range stays; otherwise the range is removed and the selection shrinks by one; the selection is never empty and never holds a range twice |
| EffortMap.ToEffortPoint | src/components/charts/Map.js:54 | a missing hours value becomes 0 |
| EffortMap.TransformEffort | src/components/charts/Map.js:49-65 | the shown cells are exactly the mapped non-metadata cells whose hours some selected range holds, all of them when nothing is selected |
| EffortMap.TransformAppend | src/components/charts/Map.js:49-65 | the transform works cell by cell in order: it distributes over concatenation |
| EffortMap.InitialSelectionKeepsAll | src/components/charts/Map.js:46-65 | under the initial selection every non-metadata cell with non-negative hours is shown |
| DataUtils.KeyFor | src/utils/dataUtils.js:5-6 | omitted arguments default to 30 days, base value 100 and volatility 0.2 |
| DataUtils.Round | src/utils/dataUtils.js:18 | rounding gives the integer within one half below and above, halves going up |
| DataUtils.GenerateSeries | src/utils/dataUtils.js:12-20 | the series has `days` points (none for a negative count); point `i` lies `days - i` days before now; its value is the rounded randomised value |
| DataUtils.SeriesSpacing | src/utils/dataUtils.js:12-17 | consecutive points are one day apart and the last is one day before now |
| DataUtils.ValueBounds | src/utils/dataUtils.js:15 | a draw in `[0, 1)` keeps the value within `baseValue * (1 ± volatility / 2)` |
| DataUtils.SeriesBounds | src/utils/dataUtils.js:15-18 | every generated value lies within those bounds, widened by one half for rounding |
| DataUtils.DistinctKeysCount | src/utils/dataUtils.js:23-28 | distinct insertion-ordered keys are as many as the cache's entries |
| DataUtils.SeriesMemo.constructor | src/utils/dataUtils.js:3 | the cache starts empty |
| DataUtils.SeriesMemo.Generate | src/utils/dataUtils.js:5-30 | a cached key returns the stored array and changes nothing; a miss generates, adds exactly that key last, and evicts the oldest key first exactly when more than 100 entries were held; the cache never exceeds 101 entries |
| DataUtils.RepeatedGenerate | src/utils/dataUtils.js:8-10 | a second call with the same key returns the first call's array |
| DataUtils.FormatNumber | src/utils/dataUtils.js:34-45 | `B` from 10^9, `M` on [10^6, 10^9), `K` on [10^3, 10^6), the plain number below 1000; a scaled mantissa is at least 1, and below 1000 except with `B` |
| DataUtils.FormatDenotes | src/utils/dataUtils.js:34-45 | mantissa times unit gives back the number |
| DataUtils.FormatMonotone | src/utils/dataUtils.js:34-45 | a larger number never gets a smaller unit |
| ExportData.StrLt | scripts/exportData.js:79 | the default `sort()` order on strings: a string never precedes itself, and a proper prefix comes first |
| ExportData.StrLtIrreflexive | scripts/exportData.js:79 | the string order is irreflexive |
| ExportData.StrLtTransitive | scripts/exportData.js:79 | the string order is transitive |
| ExportData.StrLtTotal | scripts/exportData.js:79 | any two different strings are ordered one way |
| ExportData.StrLtAsymmetric | scripts/exportData.js:79 | no two strings are ordered both ways |
| ExportData.Dedupe | scripts/exportData.js:79 | the Set spread has no duplicates and exactly the input's values |
| ExportData.InsertStr | scripts/exportData.js:79 | insertion adds exactly one element and keeps all the others |
| ExportData.InsertStrSorted | scripts/exportData.js:79 | insertion into a sorted list keeps it sorted |
| ExportData.SortStrings | scripts/exportData.js:79 | `sort()` gives a sorted permutation of its input |
| ExportData.DistinctPermutation | scripts/exportData.js:79 | a permutation of a list without duplicates has none |
| ExportData.SitesOf | scripts/exportData.js:79 | one landing site per record, in record order |
| ExportData.LandingSiteList | scripts/exportData.js:79 | the list is strictly ascending, so free of duplicates, and holds a site exactly when some record has it as `landing_site` |
| ExportData.StrictlySortedUnique | scripts/exportData.js:79 | strictly sorted lists with the same elements are equal |
| ExportData.LandingSiteListIsCanonical | scripts/exportData.js:79 | the list is the one strictly sorted list of the sites that occur |
| ExportData.RunEnd | scripts/exportData.js:48 | a character-class run ends at the first excluded character or at the end |
| ExportData.MatchAt | scripts/exportData.js:48 | the expression matches at a position exactly when a `//user:password@` segment starts there, and then ends after its `@` |
| ExportData.FirstMatch | scripts/exportData.js:48 | the search finds the leftmost match position, or reports that there is none |
| ExportData.MaskCredentials | scripts/exportData.js:48 | without a match the URI is unchanged; otherwise a credential segment starting at the leftmost match is replaced by `//<username>:<password>@` and the rest kept |
| ExportData.FirstMatchFinds | scripts/exportData.js:48 | the search stops at the first position where the expression matches |
| ExportData.MaskWithoutCredentials | scripts/exportData.js:48 | a URI without a `//user:password@` segment is unchanged |
| ExportData.MaskLeftmostCredential | scripts/exportData.js:48 | the leftmost segment becomes `//<username>:<password>@` and every character before and after it stays |
| ExportData.MaskIsCredential | scripts/exportData.js:48 | the mask is itself such a segment, in the place of the one it replaced |
| ExportData.EarlierCredential | scripts/exportData.js:48 | a segment that starts before the mask in the masked URI already started there before masking |
| ExportData.NoEarlierCredential | scripts/exportData.js:48 | after masking the leftmost segment, no segment starts before the mask |
| ExportData.MaskedTwice | scripts/exportData.js:48 | putting the mask over the mask gives the same string |
| ExportData.MaskIdempotent | scripts/exportData.js:48 | masking a masked URI changes nothing |

## Left out

- `apiCall`, its timeout race, `AbortController` and `fetch` (src/services/dataService.js:24-65) are network I/O. Their outcome, a value or a thrown message, is an input.
- `getRevenueData` always throws a not-implemented error. No operation is modelled for it.
- The clock (`Date.now`, `new Date`) and `Math.random` are inputs: clock readings and per-point random draws.
- DataUtils.GenerateSeries: takes one clock reading for all points, where the source reads the clock again for each point. It moves dates by whole 24-hour days, so daylight-saving shifts are not modelled.
- DataService.ResponseCache.WithCache: handles one call at a time. Two overlapping calls for the same key, both missing before either stores, are not modelled (the source runs asynchronously).
- Month dates are integer keys. `new Date(...)` parsing is not modelled. A record whose `month_date` is falsy has no date.
- CatchRecords.SingleSiteSeries: puts records without a date first. For a `null` date this is what the source does when every real date is after 1970, because `new Date(null)` is the epoch. For an `undefined` or empty date the comparator gives NaN and the order is then up to the engine.
- A `/cpue` response array whose elements are not records, such as `[null]`, is not modelled. The source caches it, and the all-sites transform then throws on reading `month_date` and the error is wrapped. `CpueBody.RecordArray` holds well-formed records only.
- A `cpue` or `catch` field that is `undefined` rather than `null` is treated as missing. The source would add `undefined` into a total and get NaN.
- NaN is not modelled anywhere, and neither are infinite numbers. Numbers are reals, so `Infinity` appears only as the unbounded last range.
- DataService.DistrictData: upper-cases ASCII letters only. `toUpperCase` on other characters is not modelled.
- DataUtils.SeriesMemo.Generate: keys the cache by the triple of arguments. The source uses the template string built from them, whose rendering of numbers is taken to be one-to-one.
- DataUtils.FormatNumber: returns the mantissa and its suffix. `toFixed(1)` and `toString()` rendering is not modelled.
- `formatCurrency` needs `Intl.NumberFormat`, and `debounce` needs timers. Neither is modelled.
- `Math.round` is modelled exactly, as `Round`. `Math.ceil` and decimal rendering elsewhere are not modelled.
- The following are not part of this model:
  - the Express wiring, middleware, logging and the health route of the API server;
  - connection memoisation in `connectToDatabase`;
  - the MongoDB `find().sort()` semantics, which are an input (`query`);
  - `src/services/mongoService.js`.
- The export script's I/O is not modelled: the public-IP lookup, the database connection, file writes and the `$group` aggregation.
- ExportData.LandingSiteList: takes `landing_site` values as strings. Mixed or missing values, which `sort()` would order by their string forms with `undefined` last, are not modelled.
- ExportData.StrLt: compares characters by code point, where `sort()` compares UTF-16 code units. The two agree outside the surrogate range.
- React rendering is not modelled: pages, charts, the legend component, the deck.gl layer, the view state and the hooks.
- The static data and constant tables are not modelled: district lists, colour ranges, the effort-map JSON.
- EffortMap.TransformEffort: keeps cell positions as the two coordinates only. The grid aggregation of the layer is not modelled.
