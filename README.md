# Country search: a Dafny model

This project models the core of a small country-search application. The application has an Express back end over a JSON file of country records and a browser front end.

On the server side the model covers:

- the start-up loader;
- the readiness flag that makes every route answer 503 until the data is in;
- the cached listing;
- parameter validation for the search route;
- the search route's chain of filters (name, population within ±10 %, area bounds, region, continent, language, currency, independence, time zone, UN membership, landlocked);
- pagination and the response envelope;
- the lookup by two- or three-letter code, ignoring case.

On the client side it covers:

- the applied-filters state and the handlers that change it;
- `buildQueryUrl`, `isEmptyFilters` and the URL choice in `applyFilters`;
- the population slider's `formatNumber` and its input and blur handlers.

The static export is modelled as well: it sorts the dataset in place by population and groups it by region and by language code.

Each file is one module:

- `wrappers.dfy`: `Option`.
- `seqs.dfy`: a fact about sequences that several modules share.
- `text.dfy`: lower-casing, `includes`/`indexOf`, `replace` with a string pattern, `split`/`join`, `\s` removal and `trim`, on ASCII.
- `numbers.dfy`: `toString` of integers, and the three parsers the code uses: `Number`, `parseInt(s, 10)` and `parseInt(s)` without a radix. NaN is `None`.
- `dataset.dfy`: the country record.
- `responses.dfy`: HTTP statuses and the fixed error messages.
- `paging.dfy`: page and limit clamping, and `slice`.
- `search.dfy`: validation and the filter chain. The chain is written twice:
  - as a specification (`Admits`, `Kept`);
  - as the handler runs it, one `filter` per step (`Narrow`, `Chain`, and the loops `FilterStep` and `RunChain`).

  The two are proved equal, including when the handler answers 500.
- `server.dfy`: the loader, the lookup, and the `Backend` class holding `countries`, `isDataLoaded` and the cache.
- `query_url.dfy`: the front end's filter state (`FilterPanel`), `buildQueryUrl` (`BuildQuery`, proved equal to `QueryParams`), `isEmptyFilters` and `applyFilters`.
- `slider.dfy`: `formatNumber`, proved to place its spaces exactly where the application's regular expression does, and the `PopulationControl` class.
- `static_api.dfy`: the in-place insertion sort on an `array`, the two groupings, and the four exported documents.

Three behaviours of the application follow from the proofs:

- **A population of 0 returns only 20 records** (`PopulationZeroSearchesEverything`). The population box sets 0 when its text has no digits. `isEmptyFilters` counts 0 as a filter, but `buildQueryUrl` leaves it out. The front end therefore asks for a search with no parameters, and gets back the first 20 records in an envelope rather than the whole listing.
- **Checkbox selections miss capitalised values** (`LowercasedRegionsMissCapitalised`, `LowercasedCurrenciesMissCapitalised`). The front end lower-cases every checkbox value: regions, continents, languages, time zones and currencies (js/renderCountries.js:212, 225, 238, 251, 264). The server compares each of them exactly (server/src/index.js:168, 175, 182, 189, 206). So a region, continent, currency code or time zone with a capital letter is never matched. The server's own tests use such values (`Europe`, `RUB`). The model proves this for regions and for currencies; continents and time zones go through the same two steps.
- **The landlocked checkbox is inverted** (`LandlockedCheckboxKeepsCoastal`). Ticking it sends `landlocked=false`, so the search keeps only countries that are not landlocked.

The filters do not guard against missing fields. A record without `continents` makes `.some` throw in the continents filter (server/src/index.js:172-177). A record without `timezones` makes `.includes` throw in the time-zone filter (server/src/index.js:200-209). The handler then answers 500 (server/src/index.js:238-241). `Evaluate` returns `None` there, and `SearchCorrect`, `MissingContinentsFails` and `CompleteRecordsNeverFail` state when that happens.

## Model

| member | source | states |
|---|---|---|
| Text.Lower | server/src/index.js:135-138 | same length, no upper-case letter left, and each character either kept or an upper-case letter moved to its lower-case form |
| Text.LowerIdempotent | js/renderCountries.js:212 | lower-casing twice is lower-casing once |
| Text.IndexOf | server/src/index.js:202 | the result is the first position where the pattern occurs, or there is none |
| Text.Includes | server/src/index.js:137-138 | true exactly when the pattern occurs at some position |
| Text.ReplaceFirstShape | server/src/index.js:202 | `replace` with a string pattern changes only the first occurrence: prefix, replacement, rest |
| Text.ReplaceFirstAtStart | server/src/index.js:202 | a string that starts with the pattern has that leading pattern replaced |
| Text.ReplaceFirstAbsent | server/src/index.js:202 | a string without the pattern is unchanged |
| Text.Split | server/src/index.js:166 | `split` gives at least one piece and no piece contains the separator |
| Text.JoinSplit | js/renderCountries.js:96 | joining the pieces of a split gives back the string |
| Text.SplitJoin | server/src/index.js:166 | splitting a join gives back the pieces when none contains the separator |
| Text.StripWhite | js/slider.js:28 | the result contains no white space and is no longer than the input |
| Text.StripWhiteAppend | js/slider.js:41 | stripping distributes over concatenation |
| Text.StripWhiteNone | js/slider.js:41 | a string without white space is unchanged |
| Text.SkipWhite | js/renderCountries.js:199 | the first position not holding white space, with only white space skipped before it |
| Text.BackWhite | js/renderCountries.js:199 | the end of a piece once only its trailing white space is dropped, not ending with white space |
| Text.TrimCutsWhite | js/renderCountries.js:199 | `trim` gives a piece of the input with only white space cut off on each side, with no white space at either end |
| Text.TrimIdempotent | js/renderCountries.js:199 | trimming twice is trimming once |
| Numbers.Decimal | js/slider.js:7 | `toString` of a non-negative integer is non-empty, all digits, without a leading zero, one digit exactly below 10 |
| Numbers.DecimalValue | js/slider.js:7 | the digits of `toString(n)` have the value `n` |
| Numbers.LeadingDigits | js/slider.js:29 | the longest digit prefix |
| Numbers.LeadingDigitsAll | js/slider.js:29 | an all-digit string is its own digit prefix |
| Numbers.ParseNumber | server/src/index.js:84 | `Number(s)` is a number only for the empty string or a string ending in a digit, and is negative only after a leading `-` |
| Numbers.ParseInt | js/slider.js:29 | `parseInt(s, 10)` is a number exactly when a digit follows the leading white space and the optional sign; without `-` it is not negative |
| Numbers.ParseIntAuto | server/src/index.js:226-227 | `parseInt(s)` is a number only when a digit follows the white space and the sign; without `-` it is not negative; unless the digits start `0x` it equals `parseInt(s, 10)` |
| Numbers.HexPrefix | server/src/index.js:226-227 | `0x` followed by hexadecimal digits reads as their hexadecimal value without a radix, and as 0 with radix 10 |
| Numbers.ParseIntSkipsWhite | server/src/index.js:226-227 | leading white space changes neither form of `parseInt` |
| Numbers.ParseDecimal | server/src/index.js:84 | `Number`, `parseInt(s, 10)` and `parseInt(s)` all read back `toString(n)` as `n` |
| Numbers.ParseRejects | server/src/index.js:84 | a string whose first character is neither white space, a digit nor a sign is NaN to all three parsers |
| Paging.PageNumber | server/src/index.js:226 | the page is at least 1; it is NaN exactly when `parseInt` without a radix is; a number of at least 1 is kept as it is |
| Paging.PageLimit | server/src/index.js:227 | the limit is between 1 and 100; it is NaN exactly when `parseInt` without a radix is; a number from 1 to 100 is kept as it is |
| Paging.PageStart | server/src/index.js:228 | the first page starts at index 0 |
| Paging.PagesAdjacent | server/src/index.js:228-229 | each page starts where the previous one ends, `limit` records later |
| Paging.Window | server/src/index.js:229-230 | `slice(start, start + len)` has `min(len, max(0, n - start))` elements, those from `start` on |
| Paging.PaginateMembers | server/src/index.js:230 | every record on a page is one of the paged records |
| Paging.Paginate | server/src/index.js:226-237 | `total` is the count of all matches; page at least 1; limit 1..100; a NaN page or limit gives no data; otherwise `data` is the page's window of the results |
| Paging.PaginateDefaults | server/src/index.js:127-128 | without `page` and `limit` the answer is page 1, limit 20, the first 20 results |
| Paging.PageBelowOneIsFirst | server/src/index.js:226 | a page that reads as 1 or less is page 1, and the answer is the one without `page`, whatever the limit |
| Paging.LimitAboveMaxIsMax | server/src/index.js:227 | a limit that reads as 100 or more is 100, and the answer is the one for `limit=100`, whatever the page |
| Paging.LimitBelowOneIsOne | server/src/index.js:227 | a limit that reads as 1 or less is 1, and the answer is the one for `limit=1`, whatever the page |
| Paging.PageNumberHex | server/src/index.js:226 | `page=0x…` is read as a hexadecimal page number |
| Paging.PageNumberSkipsWhite | server/src/index.js:226-227 | leading white space before the page or the limit is ignored |
| Paging.PastLastPage | server/src/index.js:228-230 | a page past the end is empty, with the full `total` |
| Search.Validate | server/src/index.js:81-97 | no failure exactly when all three numeric parameters pass, and every failure is a 400 |
| Search.ValidateCases | server/src/index.js:81-97 | a query passes exactly when each numeric parameter is absent, empty or a non-negative number; a failure is a 400 naming the first bad one in the order population, areaFrom, areaTo |
| Search.InvalidPopulationRejected | server/src/__tests__/api.test.js:161-168 | `population=invalid` is a 400 with the population message |
| Search.NormalizeTimezone | server/src/index.js:201-203 | a requested zone keeps its length: at most one space becomes a `+` |
| Search.NormalizeSpaceForm | server/src/index.js:201-203 | a requested `UTC HH:MM` zone becomes `UTC+HH:MM` |
| Search.Evaluate | server/src/index.js:134-223 | a callback throws exactly in the continents step on a record without `continents` and in the time-zone step on a record without `timezones` |
| Search.KeptMembers | server/src/index.js:131-223 | a record is in the result exactly when it is in the dataset and satisfies every active parameter |
| Search.KeptSubsequence | server/src/index.js:131 | the result keeps the dataset's order |
| Search.SelectedMembers | server/src/index.js:136 | `filter` keeps exactly the records every step keeps |
| Search.HoldsAllAppend | server/src/index.js:134-223 | passing a sequence of steps is passing each part |
| Search.Narrow | server/src/index.js:136 | a `filter` that does not throw returns no more records than it was given, all of them from the input |
| Search.Chain | server/src/index.js:131-223 | a chain that does not throw returns no more records than the dataset, all of them from it |
| Search.NarrowSelects | server/src/index.js:136-139 | one `filter` that does not throw keeps the records its callback accepts, in order |
| Search.SelectedCompose | server/src/index.js:134-223 | filtering by one step and then by the rest is filtering by all of them |
| Search.SelectedNoSteps | server/src/index.js:131 | with no active parameter the copy of the dataset is returned whole |
| Search.ChainSelects | server/src/index.js:134-223 | a chain that does not throw keeps exactly the records every step keeps |
| Search.NarrowDefined | server/src/index.js:172-177 | one `filter` throws exactly when its callback throws on some record |
| Search.ChainDefined | server/src/index.js:238-241 | the chain throws exactly when some step throws on a record that reached it |
| Search.NameStepAdmits | server/src/index.js:134-140 | the name step keeps a record exactly when the common or official name contains the name, ignoring case |
| Search.PopulationStepAdmits | server/src/index.js:141-148 | the population step keeps exactly the records with 0.9·t ≤ p ≤ 1.1·t, and keeps every record when `population` is empty |
| Search.AreaFromStepAdmits | server/src/index.js:150-155 | the `areaFrom` step keeps exactly the records with area ≥ from |
| Search.AreaToStepAdmits | server/src/index.js:157-162 | the `areaTo` step keeps exactly the records with area ≤ to |
| Search.NumberStepsAdmit | server/src/index.js:141-162 | the population step keeps 0.9·t ≤ p ≤ 1.1·t; the area steps keep area ≥ from and area ≤ to |
| Search.RegionStepAdmits | server/src/index.js:165-170 | the region step keeps a record whose region is one of the listed values |
| Search.ContinentStepAdmits | server/src/index.js:172-177 | the continent step keeps a record with a listed continent |
| Search.LanguageStepAdmits | server/src/index.js:179-184 | the language step keeps a record with a listed language code |
| Search.CurrencyStepAdmits | server/src/index.js:186-191 | the currency step keeps a record with a listed currency code |
| Search.SetStepsAdmit | server/src/index.js:165-191 | the four list steps together keep what the four list parameters admit |
| Search.TimezoneStepAdmits | server/src/index.js:200-209 | the time-zone step keeps a record with one of the normalised requested zones |
| Search.NormalizedHit | server/src/index.js:201-207 | a record's zones meet the normalised list exactly when one of them is some requested zone once normalised |
| Search.FlagStepsAdmit | server/src/index.js:193-223 | each flag step keeps records whose flag equals `value === 'true'`, whenever the parameter is present |
| Search.FrontStepsAdmit | server/src/index.js:134-163 | the name and number steps keep what those parameters admit |
| Search.BackStepsAdmit | server/src/index.js:193-223 | the flag and time-zone steps keep what those parameters admit |
| Search.StepsAdmit | server/src/index.js:134-223 | all steps of a valid query keep a record exactly when the query admits it |
| Search.SelectedKept | server/src/index.js:131-223 | the engine's selection equals the specification's result |
| Search.SearchCountries | server/src/index.js:113-242 | a failure is the validation error or the 500; a success passed validation and counts no more records than the dataset |
| Search.SearchCorrect | server/src/index.js:113-242 | a validation failure is returned as is; 500 exactly when a filter throws on a record that reaches it; otherwise the page of the admitted records in dataset order, with their count as `total` |
| Search.SearchSound | server/src/index.js:232-237 | every record on a result page is in the dataset and satisfies every active parameter |
| Search.EvaluateDefined | server/src/index.js:175 | a record with `continents` and `timezones` never makes a callback throw |
| Search.CompleteRecordsNeverFail | server/src/index.js:238-241 | on records that all have `continents` and `timezones`, a valid search never answers 500 |
| Search.MissingContinentsFails | server/src/index.js:172-177 | a record without `continents` that reaches the continents filter turns the search into a 500 |
| Search.NarrowSnoc | server/src/index.js:135 | filtering a list with one more record keeps it exactly when the callback accepts it, and throws when the callback throws on it or on an earlier record |
| Search.NarrowMembers | server/src/index.js:135 | a filter that does not throw keeps exactly the records its callback accepts |
| Search.FilterStep | server/src/index.js:135-138 | the loop over the records computes one `filter` exactly, including throwing |
| Search.RunChain | server/src/index.js:131-223 | the loop over the steps computes the whole chain exactly |
| Dataset.LanguageCodes | server/src/index.js:182 | a record without `languages` has no codes; otherwise its codes are the keys of its map |
| Dataset.CurrencyCodes | server/src/index.js:189 | a record without `currencies` has no codes; otherwise its codes are the keys of its map |
| Server.LoadCheck | server/src/index.js:36-67 | loading succeeds exactly when the file exists, is at most 10 MiB and parses to a non-empty array; a missing file and a too-large file are told apart |
| Server.FindByCode | server/src/index.js:252-255 | the first record whose `cca2` or `cca3` equals the code ignoring case, or none |
| Server.LookupByCode | server/src/index.js:245-262 | 400 exactly when the code is not 2 or 3 characters; 404 exactly when no record answers to it; otherwise the first record that does |
| Server.LookupIgnoresCase | server/src/__tests__/api.test.js:171-177 | codes equal ignoring case find the same record |
| Server.Backend.constructor | server/src/index.js:33-34 | no data, not loaded, nothing cached |
| Server.Backend.LoadData | server/src/index.js:61-62 | on success the dataset is set and marked loaded; on failure nothing changes |
| Server.Backend.ListAll | server/src/index.js:73-78 | 503 until loaded; afterwards the dataset, cached or not, and the cache then holds it |
| Server.Backend.ExpireCache | server/src/index.js:11-12 | the cache entry expires |
| Server.Backend.Search | server/src/index.js:113 | 503 until loaded; afterwards exactly `SearchCountries` on the dataset |
| Server.Backend.GetByCode | server/src/index.js:245 | 503 until loaded; afterwards exactly `LookupByCode` on the dataset |
| Server.ListTwice | server/src/index.js:100-110 | listing twice gives the same answer, whether the first call filled the cache or not |
| QueryUrl.ParamsMembers | js/renderCountries.js:91-106 | a field's pair is in the query exactly when the field emits that value |
| QueryUrl.ParamsNamed | js/renderCountries.js:84-109 | every pair of the query is named after a field that emits its value |
| QueryUrl.ParamsUnique | js/renderCountries.js:91-106 | no parameter name appears twice |
| QueryUrl.ParamsKeys | js/renderCountries.js:91-106 | a field not yet visited has no pair in the query |
| QueryUrl.ParamsEmpty | js/renderCountries.js:84-109 | the query is empty exactly when no field emits anything |
| QueryUrl.QueryParamsFaithful | js/renderCountries.js:91-101 | simple fields only when truthy, arrays only when non-empty and joined with commas, the two flags whenever set; each name once |
| QueryUrl.LandlockedInverted | js/renderCountries.js:103-106 | `landlocked` is sent whenever set, `"true"` as `"false"` and anything else as `"true"` |
| QueryUrl.ArrayParamRoundTrip | js/renderCountries.js:95-97 | the server's `split` of an array parameter gives back the selected values |
| QueryUrl.QueryOrder | js/renderCountries.js:87-106 | names appear in the order simple fields, array fields, booleans, `landlocked` |
| QueryUrl.BuildQuery | js/renderCountries.js:84-109 | the three loops and the landlocked step build exactly `QueryParams` |
| QueryUrl.SetEmitted | js/renderCountries.js:92 | one `searchParams.set` appends the field's pair, the name being new |
| QueryUrl.EmptyQueryIff | js/renderCountries.js:183-189 | for states the handlers produce, the query is empty exactly when `isEmptyFilters` holds or the only filter is a population of 0 |
| QueryUrl.LookupFinds | server/src/index.js:114-129 | the server reads each parameter's single value |
| QueryUrl.SetParamLookup | js/renderCountries.js:92 | after `searchParams.set(key, value)` the key reads `value` and every other key reads as before |
| QueryUrl.LandlockedCheckboxKeepsCoastal | js/renderCountries.js:306-314 | a ticked landlocked box sends `landlocked=false`, and the search keeps only records that are not landlocked |
| QueryUrl.CheckedValuesMembers | js/renderCountries.js:205-216 | a group's selection holds the lower-cased value of each ticked box |
| QueryUrl.CheckedValuesLower | js/renderCountries.js:212 | every selected value is already lower case |
| QueryUrl.UntickedGroupIsEmpty | js/renderCountries.js:209-213 | with no box ticked the selection is empty |
| QueryUrl.LowercasedRegionsMissCapitalised | js/renderCountries.js:212 | a region selection never admits a record whose region has a capital letter |
| QueryUrl.LowercasedCurrenciesMissCapitalised | js/renderCountries.js:264 | a currency selection never admits a record all of whose currency codes have a capital letter |
| QueryUrl.OnlyDigits | js/renderCountries.js:303 | the result is digits only and no longer than the text |
| QueryUrl.OnlyDigitsCases | js/renderCountries.js:303 | digit text is kept; text without digits becomes empty and reads as 0 |
| QueryUrl.OnlyDigitsAppend | js/renderCountries.js:303 | removing the non-digits of a concatenation removes them from each part, so the digits stay in order |
| QueryUrl.SeparatedDigits | js/renderCountries.js:303 | digits typed with a separator, such as `1 000`, read as the digits joined |
| QueryUrl.PopulationZeroSearchesEverything | js/renderCountries.js:166-189 | a population of 0 alone sends a search with no parameters, whose page shows the first 20 records, while the empty state lists them all |
| QueryUrl.FilterPanel.constructor | js/renderCountries.js:1-14 | the initial applied-filters state |
| QueryUrl.FilterPanel.OnGroupChange | js/renderCountries.js:205-268 | the group's selection becomes the ticked values lower-cased, and the request follows |
| QueryUrl.FilterPanel.OnFlagChange | js/renderCountries.js:306-314 | a flag becomes `"true"` or `null`, and the request follows |
| QueryUrl.FilterPanel.OnNameInput | js/renderCountries.js:191-203 | the name becomes the trimmed text |
| QueryUrl.FilterPanel.OnAreaInput | js/renderCountries.js:270-286 | both area bounds take the inputs' text |
| QueryUrl.FilterPanel.OnPopulationSlider | js/renderCountries.js:292-302 | the population becomes the slider's value |
| QueryUrl.FilterPanel.OnPopulationText | js/renderCountries.js:292-303 | the population becomes the value of the text's digits |
| QueryUrl.FilterPanel.ApplyFilters | js/renderCountries.js:166-181 | the listing URL when `isEmptyFilters`, otherwise the search with `QueryParams` |
| Slider.Group | js/slider.js:7 | grouping never shortens the digits |
| Slider.GroupMatchesRegex | js/slider.js:7 | grouping from the right equals the regular expression's left-to-right insertion of spaces |
| Slider.RegexSplit | js/slider.js:7 | the regular expression groups everything before the last three digits as it would without them |
| Slider.RegexNoSpace | js/slider.js:7 | fewer than three digits after a position get no space |
| Slider.StripGroup | js/slider.js:28 | removing the spaces from a grouped string gives back the digits |
| Slider.GroupLength | js/slider.js:7 | grouping adds one space for every full group of three after the first digit |
| Slider.GroupShape | js/slider.js:7 | the result has one space per full group and a space exactly at every fourth position from the end, the rest digits |
| Slider.FormatNumberRoundTrip | js/slider.js:27-29 | the input handler reads a formatted number back as that number |
| Slider.SmallNumbersUnchanged | js/slider.js:7 | numbers below 1000 are shown without a space |
| Slider.Clamp | js/slider.js:32 | the result lies in the slider's range, equal to the value inside it and to the nearer end outside it |
| Slider.PopulationControl.constructor | js/slider.js:2-3 | the slider starts within its range |
| Slider.PopulationControl.OnSliderInput | js/slider.js:21-24 | the text shows the slider value, formatted |
| Slider.PopulationControl.OnInput | js/slider.js:27-37 | parseable text moves the slider to the clamped value and reformats the text; other text is left as typed |
| Slider.PopulationControl.OnBlur | js/slider.js:40-45 | unparseable or empty text is replaced by the slider's value; parseable text stays |
| Slider.BlurAfterFormatKeeps | js/slider.js:40-45 | after a handler formatted the text, leaving the box changes nothing |
| Slider.TypedInRangeMovesSlider | js/slider.js:31-33 | typing a formatted number in range moves the slider to exactly that number |
| StaticApi.SiftLeft | server/src/static-api.js:10 | the new record moves left until its left neighbour is at least as populous; every other pair of the prefix stays in order, the records are the same and the rest of the array is untouched |
| StaticApi.InsertAt | server/src/static-api.js:10 | one insertion step extends the sorted prefix by one record; the prefix holds the same records as before and the rest of the array is untouched |
| StaticApi.SortByPopulation | server/src/static-api.js:10 | sorted in place, largest population first, with the same records |
| StaticApi.RegionKey | server/src/static-api.js:12 | never empty: the record's region when it is truthy, otherwise `Unknown` |
| StaticApi.GroupByRegion | server/src/static-api.js:11-16 | one bucket per region key (`Unknown` for none), each holding exactly that region's records in order |
| StaticApi.InRegionMembers | server/src/static-api.js:12-14 | a region bucket holds exactly the records with that key |
| StaticApi.RegionKeysMembers | server/src/static-api.js:13 | the buckets are the region keys the records carry |
| StaticApi.RegionSizes | server/src/static-api.js:11-16 | the region buckets' sizes add up to the number of records |
| StaticApi.OneRegionBucket | server/src/static-api.js:11-16 | every record is in its own region's bucket and in no other |
| StaticApi.GroupByLanguage | server/src/static-api.js:17-23 | one bucket per language code, each holding exactly the records listing it, in order |
| StaticApi.WithLanguageSnoc | server/src/static-api.js:18-21 | one more record joins exactly the buckets of its own codes, and the keys grow by its codes |
| StaticApi.PushLanguages | server/src/static-api.js:18-21 | one record joins the bucket of each of its codes and no other |
| StaticApi.WithLanguageMembers | server/src/static-api.js:18-21 | a language bucket holds exactly the records listing that code |
| StaticApi.LanguageKeysMembers | server/src/static-api.js:18-19 | the buckets are the codes some record lists |
| StaticApi.BuildEndpoints | server/src/static-api.js:8-24 | `all-countries` and `countries-by-population` are the same sorted array; the groupings are built from it |
| StaticApi.SortedKeepsRecords | server/src/static-api.js:10 | the sorted file holds the same records as before sorting |

## Left out

- Reading and writing files, `console` output, `process.exit`, the DOM, `fetch`, and the generated README of the static export. The loader's file is a parameter, and requests and responses are values.
- Rate limiting, CORS, the JSON body limit, the error middleware, and signal handling. None of them change what a route computes.
- Time: the cache's one-hour lifetime is the explicit `ExpireCache` step, and the 400 ms debounce timers are not modelled. The name handler assigns `name` only when its timer fires (js/renderCountries.js:196-201), and `OnNameInput` is that moment.
- QueryUrl.FilterPanel.OnAreaInput, QueryUrl.FilterPanel.OnPopulationSlider, QueryUrl.FilterPanel.OnPopulationText: the source assigns the area bounds and the population at once and debounces only `applyFilters` (js/renderCountries.js:275-281, 293-299). A checkbox change inside the 400 ms window therefore already sends the new area or population (js/renderCountries.js:209-213). The model's handlers assign the state and make their request in one step, so a later checkbox change sends the new values here too. What they leave out is the delay itself: in the source the handler's own request goes out 400 ms later, with the state at that moment, and a further input in between cancels it.
- Floating point: the population window is compared on exact reals, and areas are reals.
- Numbers.ParseNumber: `Number` is modelled only on the empty string and an optional sign followed by digits. Decimals, exponents, `0x`/`0b`/`0o` prefixes, `Infinity` and surrounding white space are numbers in JavaScript but NaN here, so the model answers 400 where the server would accept, say, `population=1e6`.
- Numbers.ParseIntAuto: `parseInt` without a radix is modelled with its `0x` prefix and its skipping of leading white space. The white space it skips is the ASCII set (space, tab, line feed, vertical tab, form feed, carriage return). JavaScript also skips U+00A0, U+FEFF, the line and paragraph separators and the other Unicode space characters. `Numbers.ParseInt` shares this white-space set.
- Unicode: lower-casing, white space and `trim` are ASCII only. Percent-encoding of the query string is left out; parameters are name/value pairs.
- Server.Backend.LoadData: a failed load ends the process in the source; here the state is left unchanged and the failure returned.
- Search: a record whose boolean flags are missing, and array-valued query parameters (a name repeated in the URL), are not modelled.
- StaticApi.GroupByRegion, StaticApi.GroupByLanguage: object keys named like `Object.prototype` members (`constructor`, `toString`) are not modelled. Such a key as a region or language would make `acc[key]` already exist in the static export.
- QueryUrl.FilterPanel.OnPopulationSlider: shows the number with `toLocaleString("ru-RU")` in the source; that display text is not modelled.
- Slider: `updateSliderTrack` (a CSS gradient) and `toggleSingleFilter` (a CSS class) are not modelled. The range input's snapping to its `step` is not modelled either; the slider keeps the clamped value.
- Slider.FormatNumber: modelled on non-negative integers. This assumes the slider's range does not go below zero; the range is set in the page's markup, which is not part of this model.
- StaticApi.SortByPopulation: the source's comparator sort is written as an insertion sort over the array; the order of records with equal population is not stated.
- The rendering functions, the detail page, and the loading of filter options from the back end are not part of this model.
