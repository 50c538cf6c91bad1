/**
 * `buildSearchUrl` (src/utils/buildSearchUrl.ts): the `GetSearchPageState.htm` request URL whose
 * `searchQueryState` carries a `filterState` record built from the optional price, bed, bath,
 * home type and sort parameters, with `page` and `pageSize` defaulting to 1 and 20.
 */
/** The search endpoint of `buildSearchUrl`, on its own so that its literal stays cheap to reason about. */
module SearchEndpoint {
  const ZillowHost: string := "https://www.zillow.com/"
  const SearchPath: string := "search/GetSearchPageState.htm"
  const SearchApiUrl: string := ZillowHost + SearchPath

  lemma PieceHasNoMark(s: string)
    requires s == ZillowHost || s == SearchPath
    ensures '?' !in s
  {
  }

  /** The endpoint holds no `?`, so the first `?` of a search URL is the one before the form text. */
  lemma ApiUrlHasNoMark()
    ensures '?' !in SearchApiUrl
  {
    PieceHasNoMark(ZillowHost);
    PieceHasNoMark(SearchPath);
  }
}

module SearchUrl {
  import opened Wrappers
  import opened Text
  import opened Js
  import opened SearchFilter
  import opened SearchEndpoint

  /** A destructuring default: it applies only when the value is `undefined` (not `null`). */
  function WithDefault(v: JsValue, d: JsValue): (r: JsValue)
    ensures r != Undefined || d == Undefined
    ensures v != Undefined ==> r == v
  {
    if v == Undefined then d else v
  }

  function Page(r: SearchRequest): JsValue {
    WithDefault(r.page, Num(1.0))
  }

  function PageSize(r: SearchRequest): JsValue {
    WithDefault(r.pageSize, Num(20.0))
  }

  // ---------------------------------------------------------------------------------------------
  // The request URL

  /** The `searchQueryState` record, before `JSON.stringify`. */
  function SearchQueryState(r: SearchRequest): JsValue {
    Obj([
      ("pagination", Obj([("currentPage", Page(r))])),
      ("usersSearchTerm", r.location),
      ("filterState", Obj(FilterStateSteps(r))),
      ("isMapVisible", Bool(false)),
      ("mapBounds", Obj([])),
      ("regionSelection", Arr([])),
      ("category", Str("cat1"))])
  }

  /** The `wants` record, before `JSON.stringify`. */
  function Wants(): JsValue {
    Obj([("cat1", Arr([Str("listResults")])), ("cat2", Arr([Str("total")]))])
  }

  /**
   * The URL: the search endpoint, `?`, and the four form fields as `URLSearchParams` writes them.
   * `json` stands for `JSON.stringify`, `text` for `String`, `form` for `URLSearchParams#toString`,
   * and `requestId` for the random request number.
   */
  function BuildSearchUrl(r: SearchRequest, requestId: string, json: JsValue -> string,
                          text: JsValue -> string, form: seq<(string, string)> -> string): (url: string)
    ensures StartsWith(url, SearchApiUrl + "?")
  {
    SearchApiUrl + "?" + form(FormFields(r, requestId, json, text))
  }

  function FormFields(r: SearchRequest, requestId: string, json: JsValue -> string,
                      text: JsValue -> string): seq<(string, string)> {
    [("searchQueryState", json(SearchQueryState(r))),
     ("wants", json(Wants())),
     ("requestId", requestId),
     ("pageSize", text(PageSize(r)))]
  }

  /** `url.split('?')[1]` gives back the form text, which `URLSearchParams` writes without a `?`. */
  lemma SearchUrlReadBack(r: SearchRequest, requestId: string, json: JsValue -> string,
                          text: JsValue -> string, form: seq<(string, string)> -> string)
    requires '?' !in form(FormFields(r, requestId, json, text))
    ensures var parts := Split(BuildSearchUrl(r, requestId, json, text, form), '?');
      |parts| == 2 && parts[0] == SearchApiUrl && parts[1] == form(FormFields(r, requestId, json, text))
  {
    var q := form(FormFields(r, requestId, json, text));
    ApiUrlHasNoMark();
    SplitCons(SearchApiUrl, '?', q);
    assert IndexOf(q, '?') == None;
  }

  /** The query state carries the page, 1 unless given. */
  lemma QueryStatePage(r: SearchRequest)
    ensures Field(Field(SearchQueryState(r), "pagination"), "currentPage") == (if r.page == Undefined then Num(1.0) else r.page)
  {
  }

  /** The query state carries the search term as given. */
  lemma QueryStateTerm(r: SearchRequest)
    ensures Field(SearchQueryState(r), "usersSearchTerm") == r.location
  {
    var es := SearchQueryState(r).entries;
    assert es[0].0 != "usersSearchTerm";
    LookupAt(es, 1, "usersSearchTerm");
  }

  /** The query state carries the filter record. */
  lemma QueryStateFilter(r: SearchRequest)
    ensures Field(SearchQueryState(r), "filterState") == Obj(FilterStateSteps(r))
  {
    var es := SearchQueryState(r).entries;
    assert es[0].0 != "filterState";
    assert es[1].0 != "filterState";
    LookupAt(es, 2, "filterState");
  }

  /** The first entry under `key` is the one `Lookup` finds. */
  lemma {:induction false} LookupAt(entries: seq<(string, JsValue)>, i: nat, key: string)
    requires i < |entries| && entries[i].0 == key
    requires forall j :: 0 <= j < i ==> entries[j].0 != key
    ensures Lookup(entries, key) == entries[i].1
    decreases i
  {
    if i > 0 {
      LookupAt(entries[1..], i - 1, key);
    }
  }

  /** `pageSize` is 20 unless given; `null` is kept, as only `undefined` takes the default. */
  lemma PageSizeDefault(r: SearchRequest)
    ensures PageSize(r) == (if r.pageSize == Undefined then Num(20.0) else r.pageSize)
    ensures r.pageSize == Null ==> PageSize(r) == Null
  {
  }

  // ---------------------------------------------------------------------------------------------
  // Worked examples

  /** A home type and a sort order given, and page and page size passed through. */
  lemma TypeSortPageExample(r: SearchRequest)
    requires Given(r.propertyType) && Given(r.sortBy) && Given(r.page) && Given(r.pageSize)
    ensures Lookup(FilterStateSteps(r), "homeType") == Arr([r.propertyType])
    ensures Field(Lookup(FilterStateSteps(r), "sortSelection"), "value") == r.sortBy
    ensures Page(r) == r.page && PageSize(r) == r.pageSize
  {
    FilterLookup(r, "homeType");
    FilterLookup(r, "sortSelection");
  }

  /** Only a location: an empty filter record, page 1 and 20 results per page. */
  lemma RequiredOnlyExample(r: SearchRequest)
    requires r.minPrice == Undefined && r.maxPrice == Undefined && r.minBeds == Undefined && r.maxBeds == Undefined
    requires r.minBaths == Undefined && r.maxBaths == Undefined && r.propertyType == Undefined && r.sortBy == Undefined
    requires r.page == Undefined && r.pageSize == Undefined
    ensures FilterStateSteps(r) == []
    ensures Page(r) == Num(1.0) && PageSize(r) == Num(20.0)
  {
  }
}
