# MCP Zillow Server — a verified model of its core utilities

The MCP Zillow Server answers property-search tools for an MCP client by building Zillow URLs,
fetching them politely and shaping the answers. This project models, in Dafny, the parts of it that
decide what is asked for and what is returned:

- `robots.ts` — the `robots.txt` parser (`RobotsParser`: groups, longest-match allow/disallow rules
  with `*` and `?` wildcards, `$` being an ordinary character, crawl delays, sitemaps, statistics) and the fetching handler
  (`RobotsHandler`: one-hour cache, fail-open on error, crawl delay and wait time). Modules
  `RobotsPatterns`, `RobotsParsing` and `RobotsFetching`.
- `http.ts` — `fetchWithUserAgent` with its retry loop and exponential back-off, and `formatError`
  (module `Http`).
- `cache.ts` — `generateCacheKey` and the expiring `Cache` (module `Caching`).
- `formatResults.ts` — mapping raw listings, filtering, sorting and paginating them (module
  `FormatResults`).
- `validation/location.ts` — normalising and validating a free-text US location (modules
  `Location`, with worked examples in `LocationPieces` and `LocationExamples`).
- `urlBuilder.ts` — the Zillow search-page URL with its path segments and `searchQueryState`
  pagination (module `UrlBuilder`).
- `buildSearchUrl.ts` — the `filterState` record, the `page`/`pageSize` defaults and the request URL
  prefix (modules `SearchFilter`, `SearchEndpoint`, `SearchUrl`).
- `propertyUrlBuilder.ts` — the property-details URL (module `PropertyUrl`).
- `errors.ts` — the error classes and their formatting (module `Errors`).

Shared helpers: `Wrappers` (Option and Result), `Text` (JavaScript's white space, `trim`, ASCII case
mapping, `split`/`join`, `indexOf`), `Js` (JavaScript values and truthiness, `String` of an integer,
`encodeURIComponent` over UTF-8, `parseFloat`) and `Net` (requests and headers).

Whatever the server cannot compute by itself is a parameter of the model: the network is a function
from a request (or an attempt number) to a response or a failure, the clock is a number passed in,
the `URL` constructor is a function that either gives a pathname or throws, and `JSON.stringify`,
`String(value)` and `URLSearchParams#toString` are functions passed to the members that use them.
The two stateful objects of the source, `RobotsParser` and `RobotsHandler` (and the expiring
`Cache`), are Dafny classes whose methods are proved against specification functions on their
state; everything else is functions and lemmas.

## Model

| member | source | states |
|---|---|---|
| Caching.Insert | src/cache.ts:55 | inserting a key not yet present into sorted keys keeps them sorted and adds exactly that key |
| Caching.SortKeys | src/cache.ts:54-55 | `Object.keys(obj).sort()` gives the property names, each once, in ascending UTF-16 code-unit order |
| Caching.SortedUnique | src/cache.ts:55 | there is only one sorted arrangement of a set of names, so the sort result does not depend on the input order |
| Caching.Keys | src/cache.ts:54 | `Object.keys` lists the property names in the object's own property order |
| Caching.Pairs | src/cache.ts:56 | each name becomes `name:` followed by the serialisation of its value, in the order given |
| Caching.KeyOrderIndependent | src/cache.ts:49-59 | two objects with the same properties written in different orders get the same cache key |
| Caching.GenerateCacheKey | src/cache.ts:53-59 | the key is the `name:value` pairs joined by `\|`, each property name once and in ascending UTF-16 code-unit order |
| Caching.SurrogateSortsFirst | src/cache.ts:55 | `sort()` compares UTF-16 code units, so an astral character (high surrogate 0xD83D) sorts before U+FF01 although its code point is larger |
| Caching.EmptyKey | src/cache.ts:53-59 | an object without properties gives the empty key |
| Caching.SingleKeyDistinguishes | src/cache.ts:53-59 | one-property objects whose values serialise differently get different keys |
| Caching.FieldOr | src/cache.ts:17-18 | `options?.x \|\| default`: a missing option and 0 both give the default, any other number is kept |
| Caching.Cache.constructor | src/cache.ts:15-21 | the cache starts empty, with the standard TTL and the check period taken from the options or their defaults |
| Caching.Cache.Get | src/cache.ts:23-31 | `get` answers the stored value while it has not expired, and `undefined` otherwise |
| Caching.Cache.Set | src/cache.ts:33-36 | `set` stores the value under the key with its expiry time and leaves every other key as it was |
| Caching.Cache.Del | src/cache.ts:38-41 | `del` removes that key and nothing else |
| Caching.Cache.Clear | src/cache.ts:43-46 | `clear` empties the store |
| Caching.StdTtlNeverZero | src/cache.ts:15-21 | the standard TTL is never 0, so a value set without a TTL always expires; without options it is 600 s with a 120 s check period |
| Caching.SetThenGet | src/cache.ts:23-36 | a value just set is read back at every later time until its TTL runs out, and forever when the TTL is 0 |
| Caching.ExpiresAfterTtl | src/cache.ts:23-36 | once a non-zero TTL has run out, the key reads as absent |
| Caching.SetLeavesOthers | src/cache.ts:33-36 | setting one key does not change what any other key reads |
| Caching.MissingKey | src/cache.ts:23-31 | a key never set reads as `undefined` |
| Caching.DelRemovesOnly | src/cache.ts:38-41 | after `del(k)`, `k` reads as absent and every other key reads as before |
| Caching.ClearRemovesAll | src/cache.ts:43-46 | after `clear()` every key reads as absent |
| Errors.NewError | src/errors.ts:5-57 | each class's constructor keeps the class and the message; only ValidationError, ParsingError and ToolError keep `details` |
| Errors.CodesDistinct | src/errors.ts:5-57 | the six error classes carry six different codes |
| Errors.Property | src/errors.ts:66-68 | reading a property of `undefined` or `null` throws, and of nothing else |
| Errors.Or | src/errors.ts:66-68 | `a \|\| b` is `a` when `a` is truthy and `b` otherwise |
| Errors.FormatError | src/errors.ts:62-72 | `formatError` throws exactly when given `undefined` or `null`; otherwise the response has `success` false and `data` null, a truthy code and message, and truthy or absent details |
| Errors.FormatKnownError | src/errors.ts:5-72 | an instance of one of the six classes with a non-empty message keeps its code and message, and its details when they are truthy |
| Errors.FormatPlainError | src/errors.ts:62-72 | a plain `Error` is reported as `unknown_error`, with the default message when its own is empty, and without details |
| FormatResults.TextOr | src/utils/formatResults.ts:24-32 | a missing or empty text field takes the fallback; any other text is kept |
| FormatResults.NumberOr0 | src/utils/formatResults.ts:26-31 | a missing number becomes 0; a given one is kept (0 stays 0) |
| FormatResults.MapApiResponseToProperty | src/utils/formatResults.ts:21-34 | each of the nine fields is copied or replaced by its default: `''`, 0, or `UNKNOWN` for the home type |
| FormatResults.MapCompleteListing | src/utils/formatResults.ts:21-34 | a raw listing with every field given (and a non-empty home type) is copied unchanged |
| FormatResults.MapEmptyListing | src/utils/formatResults.ts:21-34 | an empty raw listing gets every default |
| FormatResults.FilterProperties | src/utils/formatResults.ts:36-47 | a listing is in the result exactly when it is in the input and passes all seven tests |
| FormatResults.FilterIsSubsequence | src/utils/formatResults.ts:37 | the result keeps the input order: it is a subsequence of the input |
| FormatResults.FilterKeepsCounts | src/utils/formatResults.ts:37 | each listing that passes is kept as often as it occurs, duplicates included |
| FormatResults.BoundsInclusive | src/utils/formatResults.ts:38-44 | every bound is inclusive: a listing exactly on each bound, of a listed type, is kept |
| FormatResults.FilterDefaults | src/utils/formatResults.ts:36-47 | empty options keep every listing in order |
| FormatResults.FilterEmptyTypes | src/utils/formatResults.ts:44 | an empty (but given) type list is truthy and keeps nothing |
| FormatResults.InsertSorted | src/utils/formatResults.ts:60-62 | one insertion step adds exactly the new listing to the others |
| FormatResults.InsertSortedOrdered | src/utils/formatResults.ts:51-62 | inserting into a sequence ordered by the comparator keeps it ordered |
| FormatResults.SortProperties | src/utils/formatResults.ts:49-62 | the result is ordered by the chosen field and direction, and is a permutation of the input |
| FormatResults.SortedEnds | src/utils/formatResults.ts:51-62 | the first and last listings of the result hold the extreme values of the chosen field |
| FormatResults.CeilDiv | src/utils/formatResults.ts:66 | `Math.ceil(n / d)`: the least `q` with `n <= q·d` |
| FormatResults.TotalPages | src/utils/formatResults.ts:66 | the page count is at least 1: one for an empty list, otherwise the least number of pages that holds every item |
| FormatResults.ClampPage | src/utils/formatResults.ts:67 | the current page lies between 1 and the page count, and is the requested page when that is in range |
| FormatResults.Slice | src/utils/formatResults.ts:71 | `slice(start, end)` clamps the end to the length and gives nothing past the end |
| FormatResults.Paginate | src/utils/formatResults.ts:64-77 | the totals are reported; the page count is the least that holds every item (`Math.ceil`), and 1 for an empty list; the requested page is clamped into `[1, totalPages]`, kept when inside it; and the page holds the `itemsPerPage` items from `(currentPage-1)·itemsPerPage` on (or the rest when fewer): at most `itemsPerPage`, at least one when the list is not empty |
| FormatResults.PagesFromSuffix | src/utils/formatResults.ts:64-77 | the pages from a given one on, concatenated, are the list from that page's start |
| FormatResults.PagesCoverAll | src/utils/formatResults.ts:64-77 | the pages 1 to `totalPages`, concatenated, are the whole list: nothing is lost or repeated |
| FormatResults.PaginateEmpty | src/utils/formatResults.ts:64-77 | an empty list is one empty page |
| FormatResults.PaginateSecondOfThree | src/utils/formatResults.ts:64-77 | three items one per page: page 2 holds the second of three pages |
| FormatResults.PaginatePastEnd | src/utils/formatResults.ts:64-77 | a page past the end is clamped to the last page |
| Http.BackoffDoubles | src/utils/http.ts:62 | the backoff after the first failure is 250 ms and doubles after each further failure |
| Http.AttemptRequest | src/utils/http.ts:47-51 | every attempt sends the URL with the given `User-Agent` and `Accept-Language: en-US,en;q=0.9` |
| Http.RetryLoop | src/utils/http.ts:40-68 | the loop returns and logs exactly what the recursive definition of the attempts gives |
| Http.Attempts | src/utils/http.ts:41-63 | a response returned is the response of some attempt still allowed, and the loop gives up only when every remaining attempt was rejected |
| Http.FetchWithUserAgent | src/utils/http.ts:20-69 | the call, with an omitted user agent replaced by the default one and the other defaults applied, behaves as the retry loop alone, whatever wait the handler answers |
| Http.PoliteFetchWithUserAgent | src/utils/http.ts:35-38 | with a handler, the call sleeps the handler's wait before the first attempt; without one it is the retry loop |
| Http.FailureLog | src/utils/http.ts:56-63 | `n` failed attempts leave `2n` events: each request sent, then its backoff slept |
| Http.NoAttempts | src/utils/http.ts:40-68 | with `retries` of 0 or less nothing is sent and `undefined` is thrown |
| Http.FirstResponseReturned | src/utils/http.ts:41-63 | the first attempt that resolves is returned whatever its status, after the failures before it and their backoffs |
| Http.AllAttemptsFail | src/utils/http.ts:41-68 | when every attempt fails, exactly `retries` requests are sent, each followed by its backoff, and the last error is thrown |
| Http.DefaultsAllFail | src/utils/http.ts:20-68 | with the defaults, three 10-second attempts are made with backoffs of 250, 500 and 1000 ms, and the third error is thrown |
| Http.AttemptsSendSameRequest | src/utils/http.ts:47-53 | every request the loop sends is the same one, with the same timeout |
| Http.WaitIgnored | src/utils/http.ts:36-38 | even when the handler asks for a positive wait, the first event is a request sent; the corrected call sleeps first |
| Http.FormatError | src/utils/http.ts:81-86 | the report carries the error's message (or `String(err)` for a non-`Error`) and carries `details` exactly when they are truthy |
| Js.NatToString | src/utils/propertyUrlBuilder.ts:17 | `String(n)` for a whole number: decimal digits without a leading zero |
| Js.NatToStringValue | src/utils/propertyUrlBuilder.ts:17 | reading the decimal rendering back gives the number: nothing is lost |
| Js.IntToString | src/utils/urlBuilder.ts:34-37 | `String(n)` of an integer starts with `-` exactly when it is negative, and is otherwise at least one digit and digits only |
| Js.IntToStringValue | src/utils/urlBuilder.ts:34-37 | the digits after the sign read back as the magnitude: the rendering loses nothing |
| Js.Utf8 | src/utils/urlBuilder.ts:56 | a character encodes to one to four bytes, as `encodeURIComponent` escapes them |
| Js.EncodeURIComponent | src/utils/urlBuilder.ts:56 | the output is unreserved characters and `%XX` escapes only, never shorter than the input, and equal to the input exactly when every input character is unreserved |
| Js.EncodePairs | src/utils/urlBuilder.ts:55-57 | one `key=value` item per query entry |
| Js.EncodePairsPlain | src/utils/propertyUrlBuilder.ts:28-29 | entries whose names and values need no escaping are written as they are |
| Js.LeadingDigits | src/validation/location.ts:14 | the longest run of digits at the front of a text |
| Js.ParseFloatOfNat | src/utils/robots.ts:110 | `parseFloat` reads back a whole number, ignoring any non-numeric text after it |
| Js.ParseFloat | src/utils/robots.ts:110-111 | a number is read only from text that, after leading white space, starts with a digit, a sign or `.`; anything else is `NaN`; a negative number needs a leading `-` |
| Js.ParseFloatNegative | src/utils/robots.ts:110-111 | a leading `-` negates the value |
| Js.ParseFloatFraction | src/utils/robots.ts:110 | `parseFloat("2.5")` is 2.5 |
| Js.ParseFloatExponent | src/utils/robots.ts:110 | `parseFloat(" 1e3")` is 1000: leading white space and an exponent are read |
| Js.ParseFloatWord | src/utils/robots.ts:110-111 | `parseFloat("invalid")` is `NaN` |
| Location.CollapseSpaces | src/validation/location.ts:36 | the result holds no white space but plain spaces, is empty only for an empty input, and starts with the input's first character or, for white space, a space |
| Location.CollapseRuns | src/validation/location.ts:36 | the space collapse changes only white space and leaves no two white-space characters side by side; read character by character (`MarkRuns`), each run of white space becomes one space where it begins and every other character is kept |
| Location.CommaSpaces | src/validation/location.ts:37 | the result is empty only for an empty input and starts with the input's first character |
| Location.CommaRuns | src/validation/location.ts:37 | the comma replacement changes only white space, and leaves every comma followed by exactly one space and then by something other than white space |
| Location.SpacesBeforeComma | src/validation/location.ts:39 | no white space is left directly before a comma |
| Location.NormalizeKeepsText | src/validation/location.ts:33-40 | normalisation changes only white space, except for one final period: with white space removed, the result is the input without its final `.` |
| Location.NormalizeLocation | src/validation/location.ts:33-40 | a normalised location has no white space but plain spaces, none at its start and none directly before a comma |
| Location.NormalizeTidy | src/validation/location.ts:33-40 | a location already in tidy form is its own normalisation |
| Location.TidyJoin | src/validation/location.ts:33-40 | tidy pieces joined by a space or by `, ` stay tidy |
| Location.PoBoxPrefix | src/validation/location.ts:15 | the P.O. Box test looks only at the start: whatever follows a match still matches |
| Location.StateTail | src/validation/location.ts:14 | the state at the end of an address is two capital letters |
| Location.MatchCityState | src/validation/location.ts:12 | a `City, ST` match yields a two-capital-letter state |
| Location.StateMatch | src/validation/location.ts:67 | the state search yields two capital letters when it succeeds |
| Location.StateTailNoComma | src/validation/location.ts:67 | the text after the state's comma holds no comma |
| Location.SplitThree | src/validation/location.ts:14 | three comma-free pieces joined by commas split back into those pieces |
| Location.CityStateState | src/validation/location.ts:55-67 | for `City, ST` the state search finds the same state as the city/state pattern |
| Location.StreetState | src/validation/location.ts:64-70 | for a street address the state search always succeeds, at the second comma: its `null` case cannot occur |
| Location.StreetOf | src/validation/location.ts:14 | three comma-free pieces that match number and street, city, and state parts form a street address whose state is found |
| Location.StateCodeShape | src/validation/location.ts:17-22 | the check ignores case: a code is valid exactly when its upper-cased form is |
| Location.IsValidUSStateCode | src/validation/location.ts:17-22 | a valid code is two letters |
| Location.StateCodeExamples | src/validation/location.ts:17-22 | `ca` and `WY` are accepted; `DC`, `PR` and `UK` are not |
| Location.ValidateLocation | src/validation/location.ts:42-74 | a result is valid exactly when it has a normalised text and no message; the text is the normalisation of the input, and the message is one of four |
| Location.ValidateOutcome | src/validation/location.ts:42-74 | which message a location gets: empty first, then P.O. Box, then the format checks; a place in a state outside the fifty is international, anything else unrecognised is a format error |
| Location.ZipAccepted | src/validation/location.ts:47-53 | a ZIP code is accepted as normalised: it never looks like a P.O. Box |
| Location.PoBoxRefused | src/validation/location.ts:47-49 | a P.O. Box is refused before any format is looked at |
| Location.CityStateOutcome | src/validation/location.ts:55-62 | a tidy `City, ST` is accepted exactly when the state is one of the fifty, and is otherwise international |
| Location.StreetOutcome | src/validation/location.ts:64-72 | a normalised street address is accepted exactly when its state is one of the fifty, and is otherwise international |
| Location.StreetNotOther | src/validation/location.ts:47-62 | a text starting with a house number and a comma is neither a ZIP code, a P.O. Box nor `City, ST` |
| Location.CommaNotZip | src/validation/location.ts:11 | a text with a comma is no ZIP code |
| LocationPieces.CollapseAppend | src/validation/location.ts:36 | the space collapse works piece by piece when the first piece ends in a character other than white space |
| LocationPieces.CommaAppend | src/validation/location.ts:37 | the comma replacement works piece by piece when the first piece ends in a character other than white space or a comma |
| LocationPieces.SpacesBeforeCommaAppend | src/validation/location.ts:39 | removing white space before commas works piece by piece when the first piece ends in a character other than white space |
| LocationPieces.TrimAround | src/validation/location.ts:35 | trimming removes exactly the white space around a text that starts and ends with other characters |
| LocationPieces.NormalizeUntidy | src/validation/location.ts:33-40 | an address `number street , city , state.` with any white space at its ends, between its parts and around its commas normalises to `number street, city, state` |
| LocationExamples.EmptyExample | src/__tests__/location.test.ts:10 | the empty location is refused as empty |
| LocationExamples.ZipExample | src/__tests__/location.test.ts:8 | `94105` is accepted unchanged |
| LocationExamples.ZipPlus4Example | src/__tests__/location.test.ts:9 | `94105-1234` is accepted unchanged |
| LocationExamples.ShortNumberExample | src/__tests__/location.test.ts:11 | `123` is refused as a format error |
| LocationExamples.InvalidTextExample | src/__tests__/location.test.ts:12 | `Invalid Location!` is refused as a format error |
| LocationExamples.CityStateExample | src/__tests__/location.test.ts:7 | `San Francisco, CA` is accepted unchanged |
| LocationExamples.ForeignCityExample | src/__tests__/location.test.ts:14 | `London, UK` is refused as international |
| LocationExamples.PoBoxExample | src/__tests__/location.test.ts:13 | `P.O. Box 123, San Francisco, CA` is refused as a P.O. Box |
| LocationExamples.StreetExample | src/__tests__/location.test.ts:6 | `123 Main St, San Francisco, CA 94105` is accepted unchanged |
| LocationExamples.NormalizeUntidyExample | src/__tests__/location.test.ts:26-27 | the untidy address of the normalisation test normalises to `123 Main St, San Francisco, CA 94105` |
| LocationExamples.NormalizeExample | src/__tests__/location.test.ts:25-28 | the untidy address is accepted, with the tidy text as its normalisation |
| PropertyUrl.QueryPairs | src/utils/propertyUrlBuilder.ts:24-26 | one query entry per flag that is set, `priceHistory` before `taxHistory` |
| PropertyUrl.BuildZillowPropertyUrl | src/utils/propertyUrlBuilder.ts:16-33 | the call fails, with the invalid-ZPID message, exactly when the ZPID is falsy or its text is not all digits; otherwise the URL starts with `https://www.zillow.com/homedetails/<zpid>_zpid/` |
| PropertyUrl.QueryStringFlags | src/utils/propertyUrlBuilder.ts:24-30 | the query string is empty exactly when no flag is set, and is otherwise `?` and the set flags joined by `&` |
| PropertyUrl.PropertyUrlReadBack | src/utils/propertyUrlBuilder.ts:16-32 | from a built URL the ZPID is read back before `_zpid/`, it holds a `?` exactly when a flag is set, and the query splits back into the flags |
| PropertyUrl.UrlLayout | src/utils/propertyUrlBuilder.ts:20-21 | the ZPID and `_zpid/` sit at fixed places, and a `?` can only come from the query |
| PropertyUrl.QueryReadBack | src/utils/propertyUrlBuilder.ts:28-30 | the query holds a `?` exactly when a flag is set, and after it splits at `&` into the flags |
| PropertyUrl.NumberZpid | src/utils/propertyUrlBuilder.ts:17-19 | a numeric ZPID below 10^21 is accepted exactly when it is positive: 0 is falsy and a minus sign is not a digit |
| PropertyUrl.PlainUrl | src/utils/propertyUrlBuilder.ts:16-32 | with no flag the result is the bare details URL |
| PropertyUrl.ZeroZpid | src/utils/propertyUrlBuilder.ts:17-19 | the text `"0"` is accepted where the number 0 is not |
| PropertyUrl.TextZpidExample | src/utils/propertyUrlBuilder.ts:16-32 | `"12345678"` gives `https://www.zillow.com/homedetails/12345678_zpid/` |
| PropertyUrl.NumberZpidExample | src/utils/propertyUrlBuilder.ts:16-32 | the number 987654321 gives the details URL with `987654321` |
| PropertyUrl.BothHistoriesExample | src/utils/propertyUrlBuilder.ts:24-32 | both flags give `?priceHistory=1&taxHistory=1` after the details URL |
| PropertyUrl.RejectedExamples | src/utils/propertyUrlBuilder.ts:17-19 | the empty text, a missing ZPID and `abc123` are refused |
| SearchFilter.Assign | src/utils/buildSearchUrl.ts:36-43 | `obj[key] = v` makes `key` read `v`, leaves every other key as it read, and appends a new key at the end |
| SearchFilter.AssignUnique | src/utils/buildSearchUrl.ts:36-43 | an assignment never lists a key twice |
| SearchFilter.FilterStateSteps | src/utils/buildSearchUrl.ts:35-43 | the eight conditional assignments build exactly the record of present groups in the order price, beds, baths, homeType, sortSelection |
| SearchFilter.FilterLookup | src/utils/buildSearchUrl.ts:35-43 | each property of the filter record is what the parameters ask for, and absent when they do not ask for it |
| SearchFilter.RecordLookup | src/utils/buildSearchUrl.ts:35-43 | the same, read from the one-record form |
| SearchFilter.GroupReadBack | src/utils/buildSearchUrl.ts:36-41 | a group is present exactly when one of its bounds is not `undefined` (0 and `null` count), holds those bounds unvalidated, and nothing else |
| SearchFilter.FilterKeysUnique | src/utils/buildSearchUrl.ts:35-43 | the filter record never lists a property twice |
| SearchFilter.BothBounds | src/utils/buildSearchUrl.ts:36-41 | a group with both bounds holds `min` then `max` |
| SearchFilter.AllBoundsExample | src/__tests__/buildSearchUrl.test.ts:11-39 | with every bound given, each group holds both bounds |
| SearchFilter.MinAboveMaxExample | src/__tests__/buildSearchUrl.test.ts:51-66 | a lower bound above the upper bound is passed on as given |
| SearchFilter.OmitsMissingExample | src/__tests__/buildSearchUrl.test.ts:68-76 | only a lower bed bound: no price or bath group, and a beds group without `max` |
| SearchEndpoint.ApiUrlHasNoMark | src/utils/buildSearchUrl.ts:17 | the search endpoint holds no `?` |
| SearchUrl.WithDefault | src/utils/buildSearchUrl.ts:30-31 | a destructuring default applies only when the value is `undefined` |
| SearchUrl.BuildSearchUrl | src/utils/buildSearchUrl.ts:63 | the URL is the search endpoint followed by `?` |
| SearchUrl.SearchUrlReadBack | src/utils/buildSearchUrl.ts:45-63 | splitting the URL at `?` gives the endpoint and the form text |
| SearchUrl.QueryStatePage | src/utils/buildSearchUrl.ts:30-47 | the query state carries the page, 1 unless given |
| SearchUrl.QueryStateTerm | src/utils/buildSearchUrl.ts:48 | the query state carries the location as the search term |
| SearchUrl.QueryStateFilter | src/utils/buildSearchUrl.ts:49 | the query state carries the filter record |
| SearchUrl.PageSizeDefault | src/utils/buildSearchUrl.ts:31 | `pageSize` is 20 unless given, and `null` is kept |
| SearchUrl.TypeSortPageExample | src/__tests__/buildSearchUrl.test.ts:11-39 | a home type becomes a one-element list, a sort order a `value` record, and page and page size pass through |
| SearchUrl.RequiredOnlyExample | src/__tests__/buildSearchUrl.test.ts:41-49 | only a location: an empty filter record, page 1 and 20 per page |
| UrlBuilder.OrEmpty | src/utils/urlBuilder.ts:34-37 | `${n ?? ''}` is empty exactly when the number is missing |
| UrlBuilder.DashSpaces | src/utils/urlBuilder.ts:25 | the city slug holds no white space |
| UrlBuilder.QueryEntries | src/utils/urlBuilder.ts:46-53 | one query entry for a sort order and one for a page, each only when given |
| UrlBuilder.LocationChoice | src/utils/urlBuilder.ts:21-29 | the builder throws, with the location message, exactly when there is no ZIP code and not both city and state; a ZIP code gives `<zip>_rb` |
| UrlBuilder.ZipTakesPrecedence | src/utils/urlBuilder.ts:22-23 | with a ZIP code, the city and state play no part in the URL |
| UrlBuilder.DashSpacesWords | src/utils/urlBuilder.ts:25 | two words with any white space between them are joined by one `-` |
| UrlBuilder.SlugShape | src/utils/urlBuilder.ts:25 | the city slug has no white space and no capital letter |
| UrlBuilder.FilterReadBack | src/utils/urlBuilder.ts:31-44 | the filter path is empty exactly when no filter is asked for, and otherwise splits at `/` into the segments asked for |
| UrlBuilder.SegmentOrder | src/utils/urlBuilder.ts:31-44 | the segments come in the fixed order price, beds, type, each ending in its tag |
| UrlBuilder.ZeroIsNoFilter | src/utils/urlBuilder.ts:33-37 | a price or bed bound of 0 on its own adds no segment, because 0 is falsy |
| UrlBuilder.QueryEmpty | src/utils/urlBuilder.ts:46-58 | the query is empty exactly when there is neither a sort order nor a non-zero page |
| UrlBuilder.QueryReadBack | src/utils/urlBuilder.ts:55-57 | split at `&`, the query gives back its encoded entries |
| UrlBuilder.QueryEntriesOrder | src/utils/urlBuilder.ts:46-53 | `sort` comes first and `pagination` last, the page as JSON encoded once before it is encoded again with its entry |
| UrlBuilder.LetterSortText | src/utils/urlBuilder.ts:46-57 | a sort order of letters is encoded unchanged: the first query item is `sort=` and the order |
| UrlBuilder.PaginationEntry | src/utils/urlBuilder.ts:52-56 | the pagination entry is `pagination=` and the page JSON encoded twice over |
| UrlBuilder.Layout | src/utils/urlBuilder.ts:12-19 | the location, the filter path and the optional `?query` sit in that order after `https://www.zillow.com/homes/` |
| UrlBuilder.BuildZillowSearchUrl | src/utils/urlBuilder.ts:12-29 | the builder fails, with the location message, exactly when there is no ZIP code and not both city and state; a URL it builds starts with `https://www.zillow.com/homes/` |
| UrlBuilder.SearchUrlMark | src/utils/urlBuilder.ts:18 | a search URL holds a `?` exactly when there is a sort order or a page |
| UrlBuilder.SearchUrlReadBack | src/utils/urlBuilder.ts:12-58 | the first `?` of the URL ends the path, and what follows it splits at `&` into the encoded entries |
| UrlBuilder.MissingLocationExample | tests/utils/urlBuilder.test.ts:43-48 | without a ZIP code, a city or a state the builder throws the location message |
| UrlBuilder.ZipFiltersExample | tests/utils/urlBuilder.test.ts:25-39 | the ZIP code search gives `90210_rb`, `750000_2000000_price`, `3-_beds` and `condo_type` |
| UrlBuilder.ZipSortExample | tests/utils/urlBuilder.test.ts:40 | its first query entry is `sort=days` |
| UrlBuilder.AustinExample | tests/utils/urlBuilder.test.ts:60-67 | a city and state alone give `https://www.zillow.com/homes/austin-tx_rb` |
| UrlBuilder.SanJoseExample | tests/utils/urlBuilder.test.ts:50-58 | `San José, CA` gives `san-josé-ca_rb` |
| UrlBuilder.MiamiExample | tests/utils/urlBuilder.test.ts:4-20 | the Miami search gives `miami-fl_rb`, `500000_1000000_price`, `2-4_beds` and `house_type` |
| UrlBuilder.MiamiQueryExample | tests/utils/urlBuilder.test.ts:21-22 | its query is `sort=pricea`, then an entry starting `pagination=` |
| RobotsPatterns.NormalizePattern | src/utils/robots.ts:231-237 | a normalised pattern starts with `/`; it is exactly the trimmed pattern when that already starts with `/`, and otherwise the trimmed pattern with one `/` in front |
| RobotsPatterns.IsPatternMatch | src/utils/robots.ts:258-295 | the empty pattern matches nothing, and a pattern without wildcards matches only paths that start with it |
| RobotsPatterns.PathFromUrl | src/utils/robots.ts:239-247 | a URL the parser accepts gives exactly its pathname; any other text is taken as a path, kept unchanged when it starts with `/` and given one `/` in front otherwise |
| RobotsPatterns.LiteralMatchesOnlyItself | src/utils/robots.ts:267-273 | a pattern without wildcards matches exactly one string: itself |
| RobotsPatterns.WildMatchConcat | src/utils/robots.ts:267-273 | matches of two pattern pieces give a match of the two pieces together |
| RobotsPatterns.StarMatchesAnyRun | src/utils/robots.ts:269 | a `*` matches every run of characters free of line terminators |
| RobotsPatterns.StarMatchesAnySequence | src/utils/robots.ts:269 | literal text around a `*` matches that text around any run |
| RobotsPatterns.QuestionMatchesAnyChar | src/utils/robots.ts:270 | literal text around a `?` matches that text around any one character but a line terminator |
| RobotsPatterns.LiteralHead | src/utils/robots.ts:267-273 | a literal head of a pattern consumes exactly that text from the front of the path |
| RobotsPatterns.LiteralTailRequired | src/utils/robots.ts:272 | a literal tail of a pattern must end whatever it matches: the match is anchored at the end |
| RobotsPatterns.SlashStarIsPrefix | src/utils/robots.ts:261-264 | a pattern ending in `/*` is a prefix match on the pattern without its `*` |
| RobotsPatterns.SlashIsPrefix | src/utils/robots.ts:287-289 | a wildcard-free pattern ending in `/` is a prefix match |
| RobotsPatterns.PlainPatternIsExact | src/utils/robots.ts:291-294 | a plain pattern matches the path itself and the path followed by a query string, nothing else |
| RobotsPatterns.QuestionPatternIsWhole | src/utils/robots.ts:266-274 | a pattern with a `?` and no trailing `/*` must match the whole path, `?` standing for one character |
| RobotsPatterns.StarPatternAllowsQuery | src/utils/robots.ts:276-285 | a `*` pattern without `?` matches a path it covers whole, also followed by a query string |
| RobotsPatterns.PrivateExamples | src/utils/robots.ts:287-294 | `/private` does not cover `/private/a` but covers `/private?x=1`; `/private/` covers `/private/secret` |
| RobotsPatterns.DollarIsLiteral | src/utils/robots.ts:268-271 | `$` is escaped, so it is an ordinary character: `/*.php$` matches `/x.php$` |
| RobotsPatterns.DollarIsRequired | src/utils/robots.ts:268-271 | and `/*.php$` does not match `/x.php` |
| RobotsPatterns.HtmlExample | tests/utils/robots.test.ts:167-171 | `/*.html` matches `/page.html` |
| RobotsPatterns.PrivateStarExample | tests/utils/robots.test.ts:168-172 | `/private/*` matches `/private/file.txt` |
| RobotsPatterns.SpecialHtmlExample | tests/utils/robots.test.ts:239-244 | `/special/*.html` matches `/special/page.html` and not `/other/page.html` |
| RobotsPatterns.ParamExample | tests/utils/robots.test.ts:237-242 | `/path?param=*` matches `/path?param=value` |
| RobotsPatterns.SearchExample | tests/utils/robots.test.ts:250-255 | `/search?q=*` does not match `/search?private=true` |
| RobotsParsing.ReadLine | src/utils/robots.ts:73-79 | a line yields a directive only with a non-empty field and a non-empty, trimmed value |
| RobotsParsing.ReadLineCutsAtFirstColon | src/utils/robots.ts:76-77 | splitting on every `:` and re-joining all but the first piece is cutting at the first `:` |
| RobotsParsing.WithCrawlDelay | src/utils/robots.ts:109-116 | a `Crawl-delay` value replaces the group's delay only when it reads as a non-negative number; nothing else in the group changes |
| RobotsParsing.ParseDocument | src/utils/robots.ts:60-156 | every agent token of a parsed document is non-empty and trimmed, every pattern starts with `/`, every delay is non-negative, and at most 50 sitemaps are kept, each a URL that parses |
| RobotsParsing.ParseEmpty | src/utils/robots.ts:60-156 | empty content yields no group and no sitemap |
| RobotsParsing.ReadLineSkipsNonDirective | src/utils/robots.ts:73-79 | blank lines, `#` comments and lines without `:` are skipped |
| RobotsParsing.ReadLineSkipsEmptyPart | src/utils/robots.ts:76-79 | a line with nothing before its first `:`, or only white space after it, is skipped |
| RobotsParsing.IgnoredLineKeepsState | src/utils/robots.ts:74-79 | a skipped line changes nothing |
| RobotsParsing.BareDirectiveIgnored | src/utils/robots.ts:79 | a directive with nothing after its `:`, such as a bare `Disallow:`, is skipped |
| RobotsParsing.UnknownFieldIgnored | src/utils/robots.ts:81-142 | a field other than the five known ones changes nothing |
| RobotsParsing.UserAgentOpensGroup | src/utils/robots.ts:83-92 | a `User-agent` line closes the open group, even an empty one, and opens a new empty group; sitemaps are untouched |
| RobotsParsing.ConsecutiveUserAgents | src/utils/robots.ts:83-92 | two `User-agent` lines in a row leave the first group empty: rules attach only to the newest group |
| RobotsParsing.RuleAttachesToOpenGroup | src/utils/robots.ts:95-108 | an `Allow` or `Disallow` line appends one rule with the normalised pattern to the open group and touches nothing else |
| RobotsParsing.RuleOutsideGroupIgnored | src/utils/robots.ts:93-142 | rules and delays before any `User-agent` line are dropped |
| RobotsParsing.InvalidCrawlDelayIgnored | src/utils/robots.ts:109-116 | a delay that is not a number, or is negative, keeps the previous one |
| RobotsParsing.CrawlDelayRecorded | src/utils/robots.ts:109-112 | a valid delay replaces the open group's delay |
| RobotsParsing.RejectedSitemapIgnored | src/utils/robots.ts:117-141 | once 50 sitemaps are collected, or for a URL that does not parse, a sitemap line changes nothing |
| RobotsParsing.GroupSitemapDeduplicated | src/utils/robots.ts:122-126 | inside a group a sitemap is always added to the group, and to the global list only when not already there |
| RobotsParsing.TopLevelSitemapNotDeduplicated | src/utils/robots.ts:132-138 | before any group an accepted sitemap is appended even when already collected |
| RobotsParsing.Scan | src/utils/robots.ts:167-177 | the chosen group is an applicable one with the longest token, the first such, and there is none only when no group applies |
| RobotsParsing.FirstStar | src/utils/robots.ts:179-181 | the fallback finds a group whose trimmed token is `*` with none such before it, and finds none only when no token trims to `*` |
| RobotsParsing.BestGroup | src/utils/robots.ts:163-183 | the chosen group is one of the groups; it is the first of the longest applicable ones whenever one applies, and otherwise the first group whose token trims to `*`; and there is none exactly when no group applies and no token trims to `*` |
| RobotsParsing.FallbackUnreachable | src/utils/robots.ts:179-181 | for a parsed document the fallback never fires: a `*` group is always applicable |
| RobotsParsing.BestGroupOfParsed | src/utils/robots.ts:163-183 | for a parsed document the chosen group is the first of the longest applicable ones, or none when none applies |
| RobotsParsing.Decide | src/utils/robots.ts:192-208 | the verdict comes from a matching rule with the longest pattern (in UTF-16 code units), the last such on a tie, and there is none exactly when no rule matches |
| RobotsParsing.TieCountsCodeUnits | src/utils/robots.ts:195-203 | pattern lengths count UTF-16 code units: `/😀/` is three characters but four units, so it ties with `/*/x` and, coming later, makes `/😀/x` allowed |
| RobotsParsing.RobotsParser.ScanRules | src/utils/robots.ts:192-208 | the loop over the rules, each one applied as the two branches do, ends with the verdict the specification gives |
| RobotsParsing.AllowedWithoutMatch | src/utils/robots.ts:188-209 | with no group, no rules or no matching rule, the path is allowed |
| RobotsParsing.LongestMatchDecides | src/utils/robots.ts:188-209 | when one matching rule's pattern is strictly longer than every other match, its kind decides |
| RobotsParsing.CrawlDelayFor | src/utils/robots.ts:214-221 | the delay is the chosen group's, or 1 second when it declares none |
| RobotsParsing.CrawlDelayNonNegative | src/utils/robots.ts:214-221 | for a parsed document the delay is never negative |
| RobotsParsing.RobotsParser.constructor | src/utils/robots.ts:37-52 | a new parser holds no group and no sitemap |
| RobotsParsing.RobotsParser.Parse | src/utils/robots.ts:60-156 | after `parse`, the groups and sitemaps are those of the content alone; earlier results are discarded |
| RobotsParsing.RobotsParser.ParseDirective | src/utils/robots.ts:81-142 | one directive updates the groups, the sitemaps and the open group as the line semantics say |
| RobotsParsing.RobotsParser.FindBestUserAgentGroup | src/utils/robots.ts:163-183 | the loop returns the group the specification chooses |
| RobotsParsing.RobotsParser.IsAllowed | src/utils/robots.ts:188-209 | the answer is the verdict of the longest matching rule of the chosen group, allowed when none matches; a call that names no agent checks the default agent `*` |
| RobotsParsing.RobotsParser.IsDisallowed | src/utils/robots.ts:344-365 | `isDisallowed` is always the negation of `isAllowed` |
| RobotsParsing.RobotsParser.MatchedRule | src/utils/robots.ts:192-208 | the rule loop finds no verdict or an Allow exactly when the path is allowed |
| RobotsParsing.RobotsParser.GetCrawlDelay | src/utils/robots.ts:214-221 | the loop answers the chosen group's delay or 1 |
| RobotsParsing.RobotsParser.GetSitemaps | src/utils/robots.ts:227-229 | a copy of the collected sitemaps |
| RobotsParsing.RobotsParser.GetStats | src/utils/robots.ts:320-342 | the counts of groups, rules, sitemaps and groups with a delay |
| RobotsParsing.StatsBounds | src/utils/robots.ts:320-342 | after parsing at most 50 sitemaps are counted, and no more delayed groups than groups |
| RobotsFetching.RobotsRequest | src/utils/robots.ts:398-403 | the fetch asks for `<base>/robots.txt` with the handler's `User-Agent` and `Accept-Language: en-US,en;q=0.9` |
| RobotsFetching.Fetch | src/utils/robots.ts:387-417 | unless robots.txt is ignored the text returned is the text cached; the parser stays in step with the cached text; the fetch time is kept or moved to the current time |
| RobotsFetching.FetchConsistent | src/utils/robots.ts:424-451 | fetching only when no parser is held keeps the parser in step with the cached text |
| RobotsFetching.IgnoreFlagAnswers | src/utils/robots.ts:387-467 | with the ignore flag nothing is fetched or changed: the text is empty, every path is allowed, the delay is 0 and the wait 1000 ms |
| RobotsFetching.CachedContentReused | src/utils/robots.ts:392-395 | non-empty content fetched less than an hour ago is returned again without asking the network |
| RobotsFetching.EmptyContentRefetched | src/utils/robots.ts:393-416 | empty content is never served from the cache: every call asks the network again |
| RobotsFetching.FetchSucceeds | src/utils/robots.ts:397-409 | a successful fetch stores the body, a well-formed parse of it and the time |
| RobotsFetching.FetchFailureFailsOpen | src/utils/robots.ts:410-416 | when the fetch fails the handler fails open: the path is allowed and the delay is 0 |
| RobotsFetching.ParserNeverRefreshed | src/utils/robots.ts:424-451 | once a parser exists, `isPathAllowed` and `getCrawlDelay` never fetch again, however old it is |
| RobotsFetching.CrawlDelayMsBounds | src/utils/robots.ts:441-453 | the delay in milliseconds is never negative, and is 1000 when the chosen group declares none |
| RobotsFetching.WaitTime | src/utils/robots.ts:459-467 | the wait is never negative; it is the 1000 ms default when no delay, or exactly 1000 ms, is declared; and unless the clock ran backwards it is the default or at most the declared delay |
| RobotsFetching.WaitTimeBounds | src/utils/robots.ts:459-467 | the wait is never negative, and is the 1000 ms default or at most the delay |
| RobotsFetching.WaitTimeShrinks | src/utils/robots.ts:459-467 | a later clock reading never asks for a longer wait |
| RobotsFetching.RobotsHandler.constructor | src/utils/robots.ts:368-381 | a new handler holds its settings, no content, no parser and a fetch time of 0 |
| RobotsFetching.RobotsHandler.FetchRobotsTxt | src/utils/robots.ts:387-417 | the method changes the state and answers as the fetch transition says |
| RobotsFetching.RobotsHandler.IsPathAllowed | src/utils/robots.ts:424-435 | the method fetches when there is no parser and answers as the transition says |
| RobotsFetching.RobotsHandler.GetCrawlDelay | src/utils/robots.ts:441-453 | the method fetches when there is no parser and answers the delay in milliseconds as the transition says |
| RobotsFetching.RobotsHandler.GetWaitTime | src/utils/robots.ts:459-467 | the method answers the wait as the transition says |
| RobotsFetching.RobotsHandler.IsAllowed | src/utils/robots.ts:469-479 | without a parser it throws; otherwise it answers the parser's verdict |
| RobotsFetching.RobotsHandler.IsDisallowed | src/utils/robots.ts:481-491 | without a parser it throws; otherwise it answers the negation of the parser's verdict |
| RobotsFetching.RobotsHandler.GetSitemaps | src/utils/robots.ts:493-503 | without a parser it throws; otherwise it answers the sitemaps of the cached content |

## Left out

- Network, clock, timers and `AbortController`: they are parameters (a response oracle, a time in milliseconds); timeouts and actual sleeping are not modelled, sleeps are recorded in a log.
- Console logging in `http.ts`, `robots.ts` and `cache.ts` is not modelled.
- `robotsHandler.ts` is not part of this model: `fetchWithUserAgent` receives what its `getWaitTime()` answered as a value.
- node-cache internals (clones, statistics, the `checkperiod` sweep timer) are not modelled; only the observable expiry of entries is.
- `JSON.stringify`, `String(value)` and `URLSearchParams#toString` are function parameters, not models of those functions; the pagination value of `urlBuilder.ts`, which is JSON and then percent-encoded, is modelled up to that JSON text.
- FormatResults.Paginate: requires `itemsPerPage >= 1`; with 0 or a negative size the source computes with `Infinity` and `NaN`, which is not modelled.
- FormatResults.SortProperties: the relative order of listings with equal keys is not stated (stability of `Array#sort` is left out).
- Text.ToLower, Text.ToUpper: ASCII case mapping only; non-ASCII case folding is not modelled, so neither is the way `toLowerCase` can change the length of non-ASCII text.
- RobotsPatterns.WildMatch: a `?` stands for one character of the model's strings, while the source's regular expression `.` stands for one UTF-16 code unit, so a `?` facing a character outside the Basic Multilingual Plane matches differently.
- Js.ParseFloat: the value is an exact rational; the `Infinity` spelling (so a `Crawl-delay: Infinity`) and binary floating-point rounding are not modelled.
- Js.NatToString: only non-negative integers below 10^21 print as plain digits in JavaScript; larger numbers and non-integer values are outside the model.
- PropertyUrl: a `zpid` that is not an integer is outside the model.
- SearchUrl.BuildSearchUrl: the random `requestId` is a parameter.
- UrlBuilder: optional text parameters that are `""` are treated as absent, as JavaScript's truthiness treats them.
- Errors: the error classes that no modelled member throws are kept only as codes and messages.
- The parts of `robots.ts` that no exported path reaches are not modelled: `maxRulesPerUserAgent`, `isValidPattern`, the `robotsTxtContent`, `robotsParser`, `lastFetchTime`, `crawlDelay` and `rules` fields of `RobotsParser`, and the `this.robotsParser = this` at the end of `parse`.
- The `typeof content !== 'string'` check of `parse` and the `try`/`catch` wrappers around it are not modelled: the content is a string by its type, and the parse throws nothing.

## Findings

| source | as written | input that shows it | evidently intended | confidence | as-written member | corrected member |
|---|---|---|---|---|---|---|
| src/utils/http.ts:35-38 | the robots handler's `getWaitTime()` is awaited and its answer discarded, so no wait happens before the request | a handler whose wait time is above 0: the first event of the call is a request sent, not a sleep | sleep for the answered wait before the first attempt | not executed; medium (`robotsHandler.ts` is not part of this model) | Http.WaitIgnored | Http.PoliteFetchWithUserAgent |
