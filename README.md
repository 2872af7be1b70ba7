# Home dashboard core, modelled in Dafny

This project models the decision logic behind a personal home dashboard built with SvelteKit. The parts modelled are:

- **The Communauto car-sharing availability service.** This is a single-slot cache with a 30-second time-to-live. It serves the stored response while fresh and refetches when stale. A failed refetch serves the stale entry, or rethrows when nothing is stored. Two order-preserving filters sit on top: one keeps vehicles within a radius, the other keeps vehicles that have a location.
- **The four Communauto route handlers (main, fallback, http1, proxy).** Each builds the provider URL the same way. `cityId` defaults to `90`, and the four optional bounding-box parameters are emitted in a fixed order, each only when it is non-empty. Each handler passes the upstream body through on success and answers 500 with an error body on any failure. The proxy variant also percent-encodes the provider URL into a relay URL, as the ECMA-262 `encodeURIComponent` function does (percent-encoding per section 2.1 of RFC 3986). It then unwraps the relay's `contents` field.
- **The IP gate.** This covers client-IP extraction from `x-forwarded-for` and `x-real-ip` in the `ip-check` route, and the allow-list of the `ipRestrictionService`, including its fallback address when the lookup fails.
- **The smaller services:**
  - bike-station aggregation, lookup and naming;
  - the Bonjour Québec form, response-shape dispatch, result count and date-text whitespace normalisation;
  - Hacker News top stories and relative dates;
  - Facebook events: defaults, filtering, sorting, relative dates and the mock fallback;
  - the weather icon mapping, the "today" slice and the "tomorrow" summary with its defaults;
  - crypto list assembly and the sign of a formatted change.

The modelling choices:

- **Time** is an integer number of milliseconds passed in by the caller.
- **Network requests** are outcome datatypes passed in: a rejection, or a status with a parsed body.
- **JSON** is a `Json.Value` datatype that carries JavaScript truthiness. Reading a property of `null` is modelled as the `TypeError` it throws.
- **Code outside the model** becomes function-typed parameters: JSON parsing, locale date formatting, geographic distance and bounding boxes, `String(value)`, DOM scraping, and the date-text regex rewrites.
- **Imperative code stays imperative.** The service that keeps state is a `class` with `modifies` clauses. Code that builds a list by successive `push`es, or sets defaults and then overwrites them, is a `method` proved against a specification function.

Modules:

- **Shared helpers:**
  - `Wrappers` (Option, Result);
  - `Text` (digits, integer ↔ decimal text, JavaScript whitespace, `trim`, `split(...)[0]`, `join`, `indexOf`);
  - `Seqs` (filter, find, map, a stable sort by key);
  - `Json`, `Http`, `UriComponent`.
- **One module per modelled source file:** `ProviderUrl` is the URL builder shared by the four routes.

## Model

| member | source | states |
|---|---|---|
| CommunautoService.Service.constructor | src/lib/services/communautoService.ts:34-38 | a new service has an empty slot and `lastFetch` 0 |
| CommunautoService.Service.GetVehicles | src/lib/services/communautoService.ts:40-88 | the result and new slot are `Serve` of the old slot. A fresh slot (`now - lastFetch < 30000`) is returned unchanged with no request sent. Otherwise `/api/communauto?cityId=…` is requested: a success stores the response and `now`, while a failure leaves the slot untouched, returns the stale entry, or fails with the error when the slot is empty |
| CommunautoService.Attempt | src/lib/services/communautoService.ts:52-69 | a fetch succeeds exactly when the status is 2xx, the body parses and it has no string `error` field; the parsed body is then the result |
| CommunautoService.ReturnedIsCached | src/lib/services/communautoService.ts:72-76 | every successful answer is what the slot holds afterwards |
| CommunautoService.OnlySuccessWrites | src/lib/services/communautoService.ts:60-87 | the slot changes only on a stale call whose fetch succeeded, and then holds that response and the call's `now` |
| CommunautoService.FilledNeverFails | src/lib/services/communautoService.ts:77-87 | once the slot is filled, no sequence of calls ever fails again, whatever the network does |
| CommunautoService.ErrorBodiesNeverCached | src/lib/services/communautoService.ts:60-69 | over any sequence of calls, no response carrying a string `error` is ever stored or returned |
| CommunautoService.HitsWithinTtl | src/lib/services/communautoService.ts:44-73 | after a successful refresh at time t, every call made before t + 30000 returns that response, whatever its fetch outcome |
| CommunautoService.HitsFromFreshSlot | src/lib/services/communautoService.ts:44-47 | calls made within 30 s of `lastFetch` all return the stored response and leave the slot unchanged |
| CommunautoService.CityIsNotAKey | src/lib/services/communautoService.ts:40-47 | a fresh hit filled for one city is returned for a request for another city |
| CommunautoService.InRadius | src/lib/services/communautoService.ts:159-172 | the radius filter is an order-preserving subsequence holding exactly the vehicles with truthy latitude and longitude within `radiusKm` |
| CommunautoService.ZeroCoordinateDropped | src/lib/services/communautoService.ts:160-162 | a vehicle at latitude or longitude exactly 0 is never kept by the radius filter |
| CommunautoService.WithLocation | src/lib/services/communautoService.ts:185-190 | the location filter is an order-preserving subsequence holding exactly the vehicles with truthy coordinates |
| CommunautoService.Service.GetVehiclesInArea | src/lib/services/communautoService.ts:91-134 | the area query neither reads nor writes the slot; it succeeds exactly under the conditions of `Attempt` and returns the parsed body |
| CommunautoService.Service.GetVehiclesInRadius | src/lib/services/communautoService.ts:137-180 | asks for the bounding box of the circle, then returns `InRadius` of the area vehicles, or the area query's error; the slot is untouched |
| CommunautoService.Service.GetVehiclesWithLocation | src/lib/services/communautoService.ts:183-191 | goes through `GetVehicles` (same slot update) and returns `WithLocation` of its vehicles |
| CommunautoService.Service.ClearCache | src/lib/services/communautoService.ts:194-197 | empties the slot and sets `lastFetch` to 0, so no time counts as fresh afterwards |
| ProviderUrl.BuildApiUrl | src/routes/api/communauto/+server.ts:15-26 | the successive pushes and `+=` build exactly `Url(cityId, bounds)`; with no bounds it is the base URL with nothing after the city |
| ProviderUrl.SearchParam | src/routes/api/communauto/+server.ts:6-12 | `searchParams.get` yields the value of the first pair with that name, and nothing when the name is absent |
| ProviderUrl.CityIdDefault | src/routes/api/communauto/+server.ts:6 | the city is `90` exactly when `cityId` is missing, empty or `90`; a given `cityId` is used verbatim |
| ProviderUrl.UrlStartsWithCity | src/routes/api/communauto/+server.ts:15 | the URL always begins with the provider endpoint, `?CityId=` and the city |
| ProviderUrl.PairsArePrefixed | src/routes/api/communauto/+server.ts:18-25 | the suffix is the given parameters in the order MaxLatitude, MinLatitude, MaxLongitude, MinLongitude, each as `&Name=value` |
| ProviderUrl.SuffixOnlyWithBounds | src/routes/api/communauto/+server.ts:24-26 | the URL is exactly the base when no bound is given, and base + `&` + the `&`-joined pairs otherwise |
| ProviderUrl.ZeroIsKept | src/routes/api/communauto/+server.ts:19 | a bound given as `0` is emitted, since a non-empty string is truthy |
| ProviderUrl.PrefixEachPush | src/routes/api/communauto/+server.ts:19-22 | each conditional push adds exactly its `&Name=value` pair to the suffix |
| CommunautoRoute.Get | src/routes/api/communauto/+server.ts:4-76 | status 200 exactly when the upstream answered 2xx with a parsed, non-null body, which is passed through unchanged. Otherwise 500 with the fixed error text and as details the thrown message: `Erreur HTTP: status statusText`, the parse error, or the `totalNbVehicles` read on `null` |
| CommunautoFallbackRoute.Get | src/routes/api/communauto/fallback/+server.ts:18-106 | the same URL and the same success condition; every failure gives 500 with the error text, details, timestamp and request URL |
| CommunautoHttp1Route.Get | src/routes/api/communauto/http1/+server.ts:6-94 | the same URL and the same success condition; every failure gives 500 with the error text, details, timestamp and request URL |
| CommunautoProxyRoute.Get | src/routes/api/communauto/proxy/+server.ts:18-116 | the relay URL wraps the provider URL. Status 200 exactly when the relay answered 2xx with a truthy `contents` whose text parses to a non-null value, which is returned instead of the wrapper. A missing `contents` gives `Réponse invalide du proxy externe`, and every failure gives 500 with timestamp and URL |
| CommunautoProxyRoute.RelayUrlDecodes | src/routes/api/communauto/proxy/+server.ts:48 | the relay URL is the relay prefix followed by text that `decodeURIComponent` turns back into the provider URL exactly |
| CommunautoProxyRoute.RelayUrlHasOneParameter | src/routes/api/communauto/proxy/+server.ts:48 | after the prefix the relay URL holds no raw `&`, `=`, `?`, `/` or `:` |
| UriComponent.DecodeEncode | src/routes/api/communauto/proxy/+server.ts:48 | decoding the encoding of any string gives it back |
| UriComponent.EncodedHasNoDelimiters | src/routes/api/communauto/proxy/+server.ts:48 | every encoded character is an unreserved mark, `%` or an upper-case hex digit |
| IpCheckRoute.ClientIp | src/routes/api/ip-check/+server.ts:15-29 | a non-empty `x-forwarded-for` gives exactly the trimmed text before its first comma, which is comma-free and has no blank at either end. Otherwise a non-empty `x-real-ip` is returned verbatim, and otherwise `127.0.0.1` |
| IpCheckRoute.SingleHop | src/routes/api/ip-check/+server.ts:17-20 | a single address without a comma is returned trimmed, whatever `x-real-ip` says |
| IpCheckRoute.FirstHopWins | src/routes/api/ip-check/+server.ts:17-20 | with forwarding headers `a, rest…`, the address is `a` trimmed, whatever `x-real-ip` says |
| IpCheckRoute.Get | src/routes/api/ip-check/+server.ts:6-47 | the body has exactly `allowed` and `message`; `allowed` is membership of the client IP in the two configured entries; the message is `Accès autorisé` exactly when allowed, else `Accès refusé` |
| IpRestrictionService.ClientIp | src/lib/services/ipRestrictionService.ts:13-31 | a failed or `null` lookup gives the fallback `198.58.233.16`; a truthy `ip` field is the answer; an object without one answers the whole object |
| IpRestrictionService.AllowedExactly | src/lib/services/ipRestrictionService.ts:2-10 | an address is allowed exactly when it is `198.58.233.16` |
| IpRestrictionService.FailedLookupGrantsAccess | src/lib/services/ipRestrictionService.ts:27-38 | when the lookup fails, access is granted |
| IpRestrictionService.ObjectWithoutIpDenied | src/lib/services/ipRestrictionService.ts:22-38 | a reply object without a truthy `ip` is refused |
| IpRestrictionService.ReportedAddressDecides | src/lib/services/ipRestrictionService.ts:22-38 | with a reported address, access is granted exactly when it is the allowed one |
| BikeService.ToInfo | src/lib/services/bikeService.ts:69-86 | total is available + disabled + free docks; available, e-bikes, docks, charging and status are copied; the name is looked up; the update time is formatted from seconds × 1000 |
| BikeService.GetStationInfo | src/lib/services/bikeService.ts:47-93 | an unusable answer gives null. Otherwise the result is built from the first station with that id, or is null when none has it |
| BikeService.GetSelectedStations | src/lib/services/bikeService.ts:95-135 | an unusable answer gives `[]`; otherwise the selected stations in upstream order, each transformed, all with configured ids and names |
| BikeService.SelectedAreNamed | src/lib/services/bikeService.ts:42-110 | the selected ids are exactly the keys of the name table |
| BikeService.UnnamedStation | src/lib/services/bikeService.ts:79 | an id other than `35` and `66` is named `Station ` + id |
| BikeService.MissingStationIsNull | src/lib/services/bikeService.ts:61-66 | an id absent from the answer gives null |
| BikeService.SelectionMatchesLookup | src/lib/services/bikeService.ts:61-127 | with unique ids, every selected station is what a lookup of its id returns |
| BonjourQuebecService.BuildForm | src/lib/services/bonjourQuebecService.ts:36-55 | the appended form is `form_id`, then the set optional fields, then the Québec region flag |
| BonjourQuebecService.OptionalField | src/lib/services/bonjourQuebecService.ts:39-53 | an optional field is sent exactly when its value is set, with that value |
| BonjourQuebecService.FieldsInOrder | src/lib/services/bonjourQuebecService.ts:39-53 | optional fields appear in the order season, start, end, page |
| BonjourQuebecService.FieldsWhenSet | src/lib/services/bonjourQuebecService.ts:39-53 | each optional key appears exactly when its filter is set |
| BonjourQuebecService.PageZeroSent | src/lib/services/bonjourQuebecService.ts:51-53 | page 0 is sent |
| BonjourQuebecService.EmptyFiltersOmitted | src/lib/services/bonjourQuebecService.ts:39-49 | empty season and date strings are not sent |
| BonjourQuebecService.FirstInsertData | src/lib/services/bonjourQuebecService.ts:80-107 | the `data` of the first element with `command` `insert` and truthy `data`, with no `null` before it; a `null` element reached first throws; nothing is found exactly when every element is neither |
| BonjourQuebecService.FoundAt | src/lib/services/bonjourQuebecService.ts:80 | an insert element reached past non-`null`, non-insert elements is the one found |
| BonjourQuebecService.NullReachedThrows | src/lib/services/bonjourQuebecService.ts:80 | a `null` element reached past non-`null`, non-insert elements makes the search throw |
| BonjourQuebecService.OuterSource | src/lib/services/bonjourQuebecService.ts:69-91 | a truthy string `data` is the markup; an array gives the fragment of its insert element's `data`, no events without one, and rethrows the search's error; every other shape gives no events; a `null` body throws |
| BonjourQuebecService.TextareaContent | src/lib/services/bonjourQuebecService.ts:94-97 | the text between the first `<textarea>` and the first `</textarea>` after it, or nothing when there is no opening tag |
| BonjourQuebecService.CompleteTextareaIsCaptured | src/lib/services/bonjourQuebecService.ts:94-97 | an opening tag followed somewhere by a closing tag is always captured |
| BonjourQuebecService.TextareaSource | src/lib/services/bonjourQuebecService.ts:93-126 | markup with a textarea whose JSON is an array yields its insert element's data (a string as it is), and no events when there is none, when the search fails, when the JSON is not an array or does not parse; markup without a complete textarea is used as it is |
| BonjourQuebecService.ParseEventsFromHtml | src/lib/services/bonjourQuebecService.ts:135-189 | events come from the scraper; the count is the first run of digits in the count text, or 0 |
| BonjourQuebecService.GetEvents | src/lib/services/bonjourQuebecService.ts:22-133 | sends `BuildForm` of the filters and answers `Expected`: a non-OK status throws `Erreur HTTP: status - statusText`, and the response-shape dispatch decides between events, the empty answer and the rethrown `TypeError` |
| BonjourQuebecService.NotOkThrows | src/lib/services/bonjourQuebecService.ts:65-67 | a non-OK status throws rather than answering empty |
| BonjourQuebecService.StringDataIsTheFragment | src/lib/services/bonjourQuebecService.ts:74-77 | a non-empty string `data` containing no `<textarea>` is parsed as the markup |
| BonjourQuebecService.ArrayInsertIsTheFragment | src/lib/services/bonjourQuebecService.ts:78-83 | an array answer whose insert element's data is markup without a complete textarea is parsed as that markup |
| BonjourQuebecService.TextareaInsertIsTheFragment | src/lib/services/bonjourQuebecService.ts:93-110 | a string `data` whose textarea holds an array with an insert element is parsed as that element's markup |
| BonjourQuebecService.OtherShapeIsEmpty | src/lib/services/bonjourQuebecService.ts:88-91 | any other shape answers no events, 0 results, page 0 |
| BonjourQuebecService.NoInsertIsEmpty | src/lib/services/bonjourQuebecService.ts:78-86 | an array without an insert element answers the empty result |
| BonjourQuebecService.FirstDigitRun | src/lib/services/bonjourQuebecService.ts:167-172 | the bounds of the first maximal run of digits, or nothing when the text has no digit |
| BonjourQuebecService.CountReadsBack | src/lib/services/bonjourQuebecService.ts:167-172 | a caption without digits, then n, then text not starting with a digit, counts as n |
| BonjourQuebecService.CollapseRuns | src/lib/services/bonjourQuebecService.ts:199 | after replacing each whitespace run with one space, no two blanks are adjacent, the only blank is the space, and the first character is blank exactly when the input's is |
| BonjourQuebecService.RunsKeepLastBlankness | src/lib/services/bonjourQuebecService.ts:199 | the collapsed text ends on a blank exactly when the input does |
| BonjourQuebecService.RunsAppend | src/lib/services/bonjourQuebecService.ts:199 | a text ending on a non-blank collapses independently of what follows it |
| BonjourQuebecService.RunBecomesOneSpace | src/lib/services/bonjourQuebecService.ts:199 | a whitespace run between non-blanks becomes exactly one space, and the text on either side collapses as it would alone |
| BonjourQuebecService.Collapse | src/lib/services/bonjourQuebecService.ts:199-216 | collapse and trim give text with single inner spaces and no blank at either end |
| BonjourQuebecService.CollapseJoinsWithOneSpace | src/lib/services/bonjourQuebecService.ts:199-216 | two texts with non-blank ends joined by a whitespace run collapse to each collapsed alone, joined by one space |
| BonjourQuebecService.FormatEventDates | src/lib/services/bonjourQuebecService.ts:196-219 | whatever the rewrites do, the output has no leading or trailing blank and no two adjacent blanks |
| BonjourQuebecService.TidyMeansSingleSpaces | src/lib/services/bonjourQuebecService.ts:216 | tidy text has no two consecutive whitespace characters |
| BonjourQuebecService.CollapseKeepsText | src/lib/services/bonjourQuebecService.ts:199 | collapsing keeps every non-blank character, in order |
| HackerNewsService.Load | src/lib/services/hackerNewsService.ts:27-62 | a reply loads exactly when it is 2xx and parses; a non-OK reply throws `Erreur API: status statusText` |
| HackerNewsService.SliceEnd | src/lib/services/hackerNewsService.ts:35 | `slice(0, limit)` keeps the first `limit` ids, and a negative limit drops from the end |
| HackerNewsService.LoadAll | src/lib/services/hackerNewsService.ts:34-36 | all items load, in order, or one of their failures is thrown |
| HackerNewsService.Requested | src/lib/services/hackerNewsService.ts:35 | the requested ids are the first `slice(0, limit)` ids, in order |
| HackerNewsService.LoadItems | src/lib/services/hackerNewsService.ts:34-36 | the items load exactly when each of them loads, and then hold each loaded item in request order |
| HackerNewsService.Stories | src/lib/services/hackerNewsService.ts:39-48 | one story per present item with a url, in order, none dropped: the k-th story is that of the k-th item with a url, and its url is non-empty |
| HackerNewsService.PresentItems | src/lib/services/hackerNewsService.ts:34-40 | when every requested item loads and is not `null`, the present items are exactly those items, in request order |
| HackerNewsService.LoadedItemsArePresent | src/lib/services/hackerNewsService.ts:34-40 | the item loads succeed with no `null` item exactly when every requested item is present, and then the loaded items are `PresentItems` |
| HackerNewsService.GetTopStories | src/lib/services/hackerNewsService.ts:23-54 | a failed id list is rethrown; the call answers exactly when the ids load and every requested item is present, and then the answer is `Stories` of the present items |
| HackerNewsService.ShownInRankingOrder | src/lib/services/hackerNewsService.ts:34-48 | on success, at most the sliced number of stories, each with a non-empty url, the k-th coming from a requested item at rank k or later |
| HackerNewsService.LinkedStoriesAreShown | src/lib/services/hackerNewsService.ts:39-48 | on success, every requested item with a url appears as a story |
| HackerNewsService.DeletedStoryThrows | src/lib/services/hackerNewsService.ts:40 | a `null` (deleted) item makes the whole call throw the `url` read on `null` |
| HackerNewsService.DefaultCallRequestsFive | src/lib/services/hackerNewsService.ts:23 | the default limit of 5 requests the first five ids, or all of them when there are fewer |
| HackerNewsService.NothingRequested | src/lib/services/hackerNewsService.ts:35 | a limit of 0, or one negative enough, loads nothing |
| HackerNewsService.NegativeLimitDropsFromEnd | src/lib/services/hackerNewsService.ts:35 | a negative limit keeps length + limit ids |
| HackerNewsService.FormatPublishDate | src/lib/services/hackerNewsService.ts:64-80 | under an hour gives `Il y a n min`, under a day `Il y a nh`, the next day `Hier`, and later the locale date |
| HackerNewsService.CountsInRange | src/lib/services/hackerNewsService.ts:67-74 | minutes shown lie in 0..59 and hours in 1..23 |
| HackerNewsService.FutureDateIsMinutesAgo | src/lib/services/hackerNewsService.ts:71-72 | a date in the future reads `Il y a -n min` |
| FacebookEventsService.OrDefault | src/lib/services/facebookEventsService.ts:145-152 | a `\|\|` default takes the value when it is a non-empty string, else the fallback |
| FacebookEventsService.TransformEvent | src/lib/services/facebookEventsService.ts:127-156 | every field is copied or defaulted (`Aucune description disponible`, `Lieu non spécifié`, 0, 0, `Événement`); a distance exactly when both coordinates are present and non-zero |
| FacebookEventsService.BareEventDefaults | src/lib/services/facebookEventsService.ts:145-152 | an event with no optional field gets every default |
| FacebookEventsService.ZeroCoordinateNoDistance | src/lib/services/facebookEventsService.ts:133-140 | a zero coordinate gives no distance |
| FacebookEventsService.MockEvents | src/lib/services/facebookEventsService.ts:176-228 | four mock events starting 2, 1, 3 and 5 days from now, each with a distance and none with an end date or ticket link |
| FacebookEventsService.Dated | src/lib/services/facebookEventsService.ts:114-117 | one transformed event per event with a start time, position by position |
| FacebookEventsService.GetLocalEvents | src/lib/services/facebookEventsService.ts:65-125 | no token or a failed search gives the mock events. Otherwise the events with a start time are transformed and sorted ascending by start date, as a permutation |
| Seqs.SortBy | src/lib/services/facebookEventsService.ts:116-117 | sorts ascending by the key and is a permutation of the input |
| FacebookEventsService.ShownEventsAreDated | src/lib/services/facebookEventsService.ts:114-117 | the shown events are exactly as many as the dated ones, and each is the transform of one of them |
| FacebookEventsService.FormatEventDate | src/lib/services/facebookEventsService.ts:230-248 | today gives `Aujourd'hui`, the next day `Demain`, 2..6 days ahead and any past date give `Dans n jours`, and later the locale date |
| FacebookEventsService.PastDateCountsNegativeDays | src/lib/services/facebookEventsService.ts:239-240 | a past date reads `Dans n jours` with n ≤ -1 |
| FacebookEventsService.DaysAhead | src/lib/services/facebookEventsService.ts:239-240 | a date 2 to 6 whole days ahead reads `Dans n jours` with that n |
| WeatherService.WeatherIcon | src/lib/services/weatherService.ts:89-103 | the icon is one of sun, cloud, rain, snow; unknown codes give sun |
| WeatherService.SunCodes | src/lib/services/weatherService.ts:90-101 | `01d` and `01n` map to `sun` |
| WeatherService.CloudCodes | src/lib/services/weatherService.ts:90-101 | `02`, `03`, `04` and `50`, day and night, map to `cloud` |
| WeatherService.RainCodes | src/lib/services/weatherService.ts:90-101 | `09`, `10` and `11`, day and night, map to `rain` |
| WeatherService.SnowCodes | src/lib/services/weatherService.ts:90-101 | `13d` and `13n` map to `snow` |
| WeatherService.DayAndNightAgree | src/lib/services/weatherService.ts:90-101 | day and night variants of each code give the same icon, the one of its group |
| WeatherService.Today | src/lib/services/weatherService.ts:176-180 | today holds the first min(4, n) forecast items, in order, each transformed |
| WeatherService.MaxOf | src/lib/services/weatherService.ts:196 | the maximum of a non-empty list is one of its elements and bounds all of them |
| WeatherService.MinOf | src/lib/services/weatherService.ts:197 | the minimum of a non-empty list is one of its elements and is below all of them |
| WeatherService.MaxPop | src/lib/services/weatherService.ts:198 | the largest precipitation chance, a missing one counting 0 |
| WeatherService.Round | src/lib/services/weatherService.ts:198 | `Math.round` gives the integer nearest, halves rounding up |
| WeatherService.TomorrowSummary | src/lib/services/weatherService.ts:188-201 | with no items, high 20, low 10, precipitation 0, `Inconnu`, and the `sun` icon that code `01d` maps to; otherwise the max high, min low, rounded max chance ×100, and the first item's description and icon |
| WeatherService.SinglePeriod | src/lib/services/weatherService.ts:195-201 | with a single period, tomorrow reports that period's high, low and chance |
| WeatherService.GetCurrentWeather | src/lib/services/weatherService.ts:105-235 | no key, a failed fetch, invalid current data or an empty forecast gives the mock data. Otherwise today, tomorrow (icon mapped), current conditions and sun times come from the data |
| WeatherService.TodayAtMostFour | src/lib/services/weatherService.ts:176 | today never holds more than 4 entries, and exactly 4 when there are that many |
| CryptoService.Entry | src/lib/services/cryptoService.ts:40-58 | symbol, name, price and change are copied; `isUp` exactly when the change is positive |
| CryptoService.GetCryptoPrices | src/lib/services/cryptoService.ts:20-68 | a failure gives the two mock entries. Otherwise BTC is present exactly when `bitcoin` is, and ETH exactly when `ethereum` is, BTC first. `isUp` holds exactly for positive changes |
| CryptoService.MockIsConsistent | src/lib/services/cryptoService.ts:70-87 | the mock entries are BTC then ETH, with `isUp` agreeing with their changes |
| CryptoService.ToFixed2 | src/lib/services/cryptoService.ts:100 | `toFixed(2)` starts with `-` exactly for negative values and ends with a point and two digits |
| CryptoService.FormatChange | src/lib/services/cryptoService.ts:98-101 | the text ends with `%`, starts with `+` exactly for positive changes and with `-` exactly for negative ones |
| CryptoService.SignOfSmallChanges | src/lib/services/cryptoService.ts:98-101 | 0 formats as `0.00%`, and -0.001 as `-0.00%` |

## Left out

- Network I/O, request headers, CORS headers, `AbortSignal.timeout` and console logging. Every fetch is an outcome value passed in; every clock read is an integer parameter.
- `src/lib/utils.ts` (bounding box and haversine distance) uses floating-point trigonometry. Both are function parameters of the radius query; nothing is claimed about the box containing the circle.
- `kelvinToCelsius`, the m/s → km/h factor and the rounding of the current temperature are floating-point numerics. Temperatures are given as integer Celsius values and the wind speed as an integer.
- A `temp_max`/`temp_min` of exactly 0 K falling back to `temp` through `||` is modelled as an absent value.
- Locale formatting is a parameter, as is `Date` parsing: `toLocaleDateString`, `toLocaleTimeString`, `Intl.NumberFormat`, ISO timestamps and the calendar test "is this item tomorrow".
- Invalid dates (`NaN`) are not modelled.
- `DOMParser` scraping of event cards is the `scrape` parameter; only the result count is modelled.
- `JSON.parse` is a parameter, and so is `String(value)` for an array `data`.
- BonjourQuebecService.FormatEventDates: the digit and dash regex rewrites are a parameter. Only the whitespace normalisation around them is stated.
- The fractional `page` values and `getSummerEvents` date literals of the Bonjour Québec service are not modelled.
- The fallback text of `response.text()` when reading an error body fails is not modelled.
- Seqs.SortBy, FacebookEventsService.GetLocalEvents: stability (the order of events with equal start dates) is not stated, only that the result is sorted and a permutation.
- HackerNewsService.LoadAll: `Promise.all` rejects with the first failure in time; the model reports some failing item. A top-stories answer that is not an array is not modelled.
- JavaScript numbers beyond 2^53, and `parseInt` precision on very long digit runs, are not modelled: integers are unbounded.
- CryptoService.ToFixed2: `toFixed` switches to exponent notation at 1e21 or more; the model always writes fixed digits. A coin field that is present but holds a falsy non-object is not modelled.
- Property lookups that would reach the object prototype are not modelled. Examples are a station id or icon code such as `constructor` in `stationNames[...]` or `iconMap[...]`.
- The `ip-check` route's 500 branch is not modelled: no code in its `try` block can throw once headers are strings.
- IpRestrictionService.ClientIp: the source loops over a list of lookup services holding one entry; the model has that one lookup.
- CommunautoService.HitsWithinTtl: calls are atomic in the model. In the source, a `getVehicles` call reads `now` (communautoService.ts:41), awaits the fetch (lines 52-64) and only then stores (lines 72-73), so overlapping calls can each fetch and overwrite the cache; the property holds for sequential calls only.
- CommunautoService.Attempt: a 2xx body is a typed response record, so a JSON object without `vehicles` is not represented. The source caches and returns such an object (communautoService.ts:64-76), and `response.vehicles.filter` then throws at lines 159 and 185.
- CommunautoService.Service.GetVehicles: the `cityId = 90` default of `getVehicles`, `getVehiclesInArea`, `getVehiclesInRadius` and `getVehiclesWithLocation` (communautoService.ts:40, 92, 138, 183) is not modelled: the city is always a parameter. Neither is the `radiusKm = 2` default of `getVehiclesInRadius` (communautoService.ts:141): the radius is always a parameter. The route handlers' own `90` default is modelled by `ProviderUrl.CityIdDefault`.
- The request URL of `getVehiclesInArea` and the Facebook search URL (`days`, `distance`, field list) are not modelled; only their answers are.
- Lone UTF-16 surrogates, for which `encodeURIComponent` throws, cannot occur: Dafny characters are Unicode scalar values.
- The diagnostic Communauto endpoints (`simple`, `test`, `test-all`, `debug`), the Bonjour Québec route, and the news and RTC services are not part of this model. Neither are the map styles, type declarations and build configuration.
