/**
 * `buildZillowSearchUrl` (src/utils/urlBuilder.ts): a search page URL made of the homes base,
 * a location segment (`<zip>_rb` or `<city-slug>-<state>_rb`), filter segments for price, beds
 * and property type, and a query carrying the sort order and the page.
 */
module UrlBuilder {
  import opened Wrappers
  import opened Text
  import opened Js

  /**
   * The parameters the builder reads. A text field that is absent is `""`: the builder only ever
   * tests text fields for truthiness, where `undefined` and `''` agree. A numeric field that is
   * absent is `None`, since `n ?? ''` tells `undefined` from `0`.
   */
  datatype SearchParams = SearchParams(
    zip: string, city: string, state: string,
    minPrice: Option<int>, maxPrice: Option<int>,
    minBeds: Option<int>, maxBeds: Option<int>,
    propertyType: string, sort: string, page: Option<int>)

  const BaseUrl: string := "https://www.zillow.com/homes"
  const ErrInvalidLocation: string :=
    "Invalid location parameters: requires either zip code or city+state combination"

  /** `if (n)` on a number: present and not zero. */
  predicate Given(n: Option<int>) {
    n.Some? && n.value != 0
  }

  /** `${n ?? ''}`: the number's decimal text, or nothing when it is undefined. */
  function OrEmpty(n: Option<int>): (r: string)
    ensures n.None? <==> r == ""
  {
    match n
    case None => ""
    case Some(v) => IntToString(v)
  }

  /** `s.replace(/\s+/g, '-')`: every maximal run of white space becomes one `-`. */
  function DashSpaces(s: string): (r: string)
    ensures NoSpace(r)
    decreases |s|
  {
    if |s| == 0 then ""
    else if IsSpace(s[0]) then "-" + DashSpaces(TrimStart(s))
    else [s[0]] + DashSpaces(s[1..])
  }

  /** `buildLocationSegment`: the ZIP code when there is one, otherwise the city and state slug. */
  function LocationSegment(p: SearchParams): Result<string, string> {
    if p.zip != "" then Success(p.zip + "_rb")
    else if p.city != "" && p.state != "" then Success(DashSpaces(ToLower(p.city)) + "-" + ToLower(p.state) + "_rb")
    else Failure(ErrInvalidLocation)
  }

  /** `buildFilterSegments`: price, then beds, then property type, each only when asked for. */
  function FilterSegments(p: SearchParams): string {
    Segment(PriceAsked(p), PriceBody(p)) + Segment(BedsAsked(p), BedsBody(p)) + Segment(p.propertyType != "", TypeBody(p))
  }

  /** One `/`-led segment, present only when its filter is asked for. */
  function Segment(asked: bool, body: string): string {
    if asked then "/" + body else ""
  }

  predicate PriceAsked(p: SearchParams) {
    Given(p.minPrice) || Given(p.maxPrice)
  }

  predicate BedsAsked(p: SearchParams) {
    Given(p.minBeds) || Given(p.maxBeds)
  }

  /** `${minPrice ?? ''}_${maxPrice ?? ''}_price` */
  function PriceBody(p: SearchParams): string {
    OrEmpty(p.minPrice) + "_" + OrEmpty(p.maxPrice) + "_price"
  }

  /** `${minBeds ?? ''}-${maxBeds ?? ''}_beds` */
  function BedsBody(p: SearchParams): string {
    OrEmpty(p.minBeds) + "-" + OrEmpty(p.maxBeds) + "_beds"
  }

  /** `${propertyType}_type` */
  function TypeBody(p: SearchParams): string {
    p.propertyType + "_type"
  }

  /** `JSON.stringify({ currentPage: page })` for an integer page. */
  function PaginationJson(page: int): string {
    "{\"currentPage\":" + IntToString(page) + "}"
  }

  /** The `query` record in insertion order: `sort` first, then `pagination`. */
  function QueryEntries(p: SearchParams): (entries: seq<(string, string)>)
    ensures |entries| == (if p.sort != "" then 1 else 0) + (if Given(p.page) then 1 else 0)
  {
    (if p.sort != "" then [("sort", p.sort)] else [])
    + (if Given(p.page) then [("pagination", EncodeURIComponent(PaginationJson(p.page.value)))] else [])
  }

  /** `buildQueryParams`: the entries encoded and joined by `&`. */
  function QueryParams(p: SearchParams): string {
    Join(EncodePairs(QueryEntries(p)), "&")
  }

  /**
   * `buildZillowSearchUrl`; a thrown `Error` becomes `Failure(message)`. It throws the location
   * message exactly when neither a ZIP code nor both city and state are given, and otherwise
   * gives a URL under the `/homes/` base.
   */
  function BuildZillowSearchUrl(p: SearchParams): (r: Result<string, string>)
    ensures r.Failure? <==> p.zip == "" && (p.city == "" || p.state == "")
    ensures r.Failure? ==> r.error == ErrInvalidLocation
    ensures r.Success? ==> StartsWith(r.value, BaseUrl + "/")
  {
    match LocationSegment(p)
    case Failure(e) => Failure(e)
    case Success(location) =>
      var query := QueryParams(p);
      Success(BaseUrl + "/" + location + FilterSegments(p) + (if query != "" then "?" + query else ""))
  }

  // ---------------------------------------------------------------------------------------------
  // The location segment

  /** A location is found exactly when a ZIP code or both city and state are given; the ZIP code wins. */
  lemma LocationChoice(p: SearchParams)
    ensures LocationSegment(p).Failure? <==> p.zip == "" && (p.city == "" || p.state == "")
    ensures LocationSegment(p).Failure? ==> LocationSegment(p).error == ErrInvalidLocation
    ensures p.zip != "" ==> LocationSegment(p) == Success(p.zip + "_rb")
    ensures BuildZillowSearchUrl(p).Failure? <==> LocationSegment(p).Failure?
  {
  }

  /** With a ZIP code, the city and state play no part in the URL. */
  lemma ZipTakesPrecedence(p: SearchParams, city: string, state: string)
    requires p.zip != ""
    ensures BuildZillowSearchUrl(p.(city := city, state := state)) == BuildZillowSearchUrl(p)
  {
    var q := p.(city := city, state := state);
    assert LocationSegment(q) == LocationSegment(p);
    assert FilterSegments(q) == FilterSegments(p);
    assert QueryEntries(q) == QueryEntries(p);
  }

  /** Text without white space is its own slug. */
  lemma {:induction false} DashSpacesSpaceFree(s: string)
    requires NoSpace(s)
    ensures DashSpaces(s) == s
    decreases |s|
  {
    if |s| > 0 {
      DashSpacesSpaceFree(s[1..]);
    }
  }

  /** Space-free text in front passes through unchanged. */
  lemma {:induction false} DashSpacesAppend(a: string, b: string)
    requires NoSpace(a)
    ensures DashSpaces(a + b) == a + DashSpaces(b)
    decreases |a|
  {
    if |a| > 0 {
      var ab := a + b;
      assert ab[0] == a[0] && !IsSpace(ab[0]);
      assert ab[1..] == a[1..] + b;
      DashSpacesAppend(a[1..], b);
      assert DashSpaces(ab) == [a[0]] + DashSpaces(a[1..] + b);
      assert a == [a[0]] + a[1..];
    } else {
      assert a + b == b;
    }
  }

  /** A run of white space before a word becomes a single `-`. */
  lemma DashSpacesRun(w: string, b: string)
    requires |w| > 0 && AllSpace(w)
    requires |b| == 0 || !IsSpace(b[0])
    ensures DashSpaces(w + b) == "-" + DashSpaces(b)
  {
    assert (w + b)[0] == w[0];
    TrimStartRun(w, b);
  }

  lemma {:induction false} TrimStartRun(w: string, b: string)
    requires AllSpace(w)
    requires |b| == 0 || !IsSpace(b[0])
    ensures TrimStart(w + b) == b
    decreases |w|
  {
    if |w| > 0 {
      assert (w + b)[0] == w[0];
      assert (w + b)[1..] == w[1..] + b;
      TrimStartRun(w[1..], b);
    } else {
      assert w + b == b;
    }
  }

  /** Two words with any white space between them are joined by one `-`. */
  lemma DashSpacesWords(a: string, w: string, b: string)
    requires NoSpace(a) && NoSpace(b) && |w| > 0 && AllSpace(w)
    ensures DashSpaces(a + w + b) == a + "-" + b
  {
    DashSpacesAppend(a, w + b);
    DashSpacesRun(w, b);
    DashSpacesSpaceFree(b);
    assert a + w + b == a + (w + b);
  }

  /** The city slug has no white space and no capital letter. */
  lemma SlugShape(city: string)
    ensures NoSpace(DashSpaces(ToLower(city))) && NoCapital(DashSpaces(ToLower(city)))
  {
    NoUpperAfterDash(ToLower(city));
  }

  predicate NoCapital(s: string) {
    forall i :: 0 <= i < |s| ==> !IsUpper(s[i])
  }

  lemma {:induction false} NoUpperAfterDash(s: string)
    requires NoCapital(s)
    ensures NoCapital(DashSpaces(s))
    decreases |s|
  {
    if |s| > 0 {
      if IsSpace(s[0]) {
        var t := TrimStart(s);
        TrimStartIsSuffix(s);
        assert forall i :: 0 <= i < |t| ==> t[i] == s[|s| - |t| + i];
        NoUpperAfterDash(t);
        var r := DashSpaces(t);
        assert DashSpaces(s) == "-" + r;
        NoUpperCons('-', r);
      } else {
        NoUpperAfterDash(s[1..]);
        NoUpperCons(s[0], DashSpaces(s[1..]));
      }
    }
  }

  lemma NoUpperCons(c: char, r: string)
    requires !IsUpper(c) && NoCapital(r)
    ensures NoCapital([c] + r)
  {
  }

  // ---------------------------------------------------------------------------------------------
  // The filter segments

  /** What each present filter segment holds, in the order they are emitted. */
  function SegmentBodies(p: SearchParams): seq<string> {
    (if PriceAsked(p) then [PriceBody(p)] else [])
    + (if BedsAsked(p) then [BedsBody(p)] else [])
    + (if p.propertyType != "" then [TypeBody(p)] else [])
  }

  /** Each segment is a `/` followed by its body. */
  lemma FilterSegmentsJoin(p: SearchParams)
    ensures FilterSegments(p) == (if SegmentBodies(p) == [] then "" else "/" + Join(SegmentBodies(p), "/"))
  {
    SlashSegments(PriceBody(p), PriceAsked(p), BedsBody(p), BedsAsked(p), TypeBody(p), p.propertyType != "");
  }

  /** Up to three optional segments, each led by a `/`, are one `/` and their bodies joined by `/`. */
  lemma SlashSegments(a: string, ga: bool, b: string, gb: bool, c: string, gc: bool)
    ensures var bodies := (if ga then [a] else []) + (if gb then [b] else []) + (if gc then [c] else []);
      Segment(ga, a) + Segment(gb, b) + Segment(gc, c) == (if bodies == [] then "" else "/" + Join(bodies, "/"))
  {
    var bodies := (if ga then [a] else []) + (if gb then [b] else []) + (if gc then [c] else []);
    if |bodies| == 3 {
      assert bodies == [a, b, c];
      assert [a, b, c][1..] == [b, c];
      assert [b, c][1..] == [c];
      assert Join([b, c], "/") == b + "/" + c;
      assert Join(bodies, "/") == a + "/" + (b + "/" + c);
    } else if |bodies| == 2 {
      assert bodies[1..] == [bodies[1]];
    }
  }

  /** No segment body holds a `/` when the property type does not. */
  lemma BodiesSlashFree(p: SearchParams)
    requires '/' !in p.propertyType
    ensures forall i :: 0 <= i < |SegmentBodies(p)| ==> '/' !in SegmentBodies(p)[i]
  {
    BodiesAvoid(p, '/');
  }

  /** A `/` or a `?` in a segment body can only come from the property type. */
  lemma BodiesAvoid(p: SearchParams, c: char)
    requires c == '/' || c == '?'
    requires c !in p.propertyType
    ensures c !in PriceBody(p) && c !in BedsBody(p) && c !in TypeBody(p)
  {
    NumberAvoids(p.minPrice, c);
    NumberAvoids(p.maxPrice, c);
    NumberAvoids(p.minBeds, c);
    NumberAvoids(p.maxBeds, c);
  }

  /** A number's text holds only digits and a leading minus sign. */
  lemma NumberAvoids(n: Option<int>, c: char)
    requires !IsDigit(c) && c != '-'
    ensures c !in OrEmpty(n)
  {
    if n.Some? {
      var t := NatToString(if n.value < 0 then -n.value else n.value);
      assert forall i :: 0 <= i < |t| ==> IsDigit(t[i]);
      assert c !in t;
    }
  }

  /**
   * Read back, the filter path lists exactly the segments that were asked for, in the fixed order
   * price, beds, type, each ending in its tag; a price or bed count of `0` counts as not asked for.
   */
  lemma FilterReadBack(p: SearchParams)
    requires '/' !in p.propertyType
    ensures var s := FilterSegments(p);
      && (s == "" <==> !(Given(p.minPrice) || Given(p.maxPrice)) && !(Given(p.minBeds) || Given(p.maxBeds)) && p.propertyType == "")
      && (s != "" ==> s[0] == '/' && Split(s[1..], '/') == SegmentBodies(p))
  {
    FilterSegmentsJoin(p);
    var bodies := SegmentBodies(p);
    if bodies != [] {
      BodiesSlashFree(p);
      var s := "/" + Join(bodies, "/");
      assert s[1..] == Join(bodies, "/");
      JoinSplit(bodies, '/');
    }
  }

  /** The tags come in the fixed order price, beds, type. */
  lemma SegmentOrder(p: SearchParams)
    ensures var b := SegmentBodies(p);
      var tags := (if Given(p.minPrice) || Given(p.maxPrice) then ["_price"] else [])
        + (if Given(p.minBeds) || Given(p.maxBeds) then ["_beds"] else [])
        + (if p.propertyType != "" then ["_type"] else []);
      |b| == |tags| && forall i :: 0 <= i < |b| ==> EndsWith(b[i], tags[i])
  {
  }

  /** A bound of `0` on its own is no filter at all: `0` is falsy. */
  lemma ZeroIsNoFilter(p: SearchParams)
    requires p.maxPrice.None? || p.maxPrice == Some(0)
    requires p.maxBeds.None? || p.maxBeds == Some(0)
    ensures FilterSegments(p.(minPrice := Some(0), minBeds := Some(0))) == FilterSegments(p.(minPrice := None, minBeds := None))
  {
  }

  // ---------------------------------------------------------------------------------------------
  // The query

  /** Each encoded entry is `key=value` with neither side holding a `&`, `=` or `?`. */
  predicate EntryShaped(e: string) {
    '&' !in e && '?' !in e && '=' in e
  }

  lemma EncodedEntriesShape(entries: seq<(string, string)>)
    ensures forall i :: 0 <= i < |EncodePairs(entries)| ==> EntryShaped(EncodePairs(entries)[i])
  {
    var encoded := EncodePairs(entries);
    forall i | 0 <= i < |encoded|
      ensures EntryShaped(encoded[i])
    {
      EncodePairsAt(entries, i);
      EscapedPairShaped(EncodeURIComponent(entries[i].0), EncodeURIComponent(entries[i].1));
    }
  }

  /** Two escaped texts joined by `=` hold one `=` and neither `&` nor `?`. */
  lemma EscapedPairShaped(k: string, v: string)
    requires Escaped(k) && Escaped(v)
    ensures EntryShaped(k + "=" + v)
  {
    var e := k + "=" + v;
    assert e[|k|] == '=';
    forall i | 0 <= i < |e|
      ensures e[i] != '&' && e[i] != '?'
    {
      if i < |k| {
        assert e[i] == k[i];
      } else if i > |k| {
        assert e[i] == v[i - |k| - 1];
      }
    }
  }

  lemma {:induction false} EncodePairsAt(entries: seq<(string, string)>, i: nat)
    requires i < |entries|
    ensures EncodePairs(entries)[i] == EncodeURIComponent(entries[i].0) + "=" + EncodeURIComponent(entries[i].1)
    decreases i
  {
    if i > 0 {
      EncodePairsAt(entries[1..], i - 1);
    }
  }

  /** The query is empty exactly when there is neither a sort order nor a (non-zero) page. */
  lemma QueryEmpty(p: SearchParams)
    ensures QueryParams(p) == "" <==> p.sort == "" && !Given(p.page)
  {
    var encoded := EncodePairs(QueryEntries(p));
    if encoded != [] {
      EncodedEntriesShape(QueryEntries(p));
      assert '=' in encoded[0];
      if |encoded| > 1 {
        assert Join(encoded, "&") == encoded[0] + "&" + Join(encoded[1..], "&");
      }
    }
  }

  /** Split at `&`, the query gives back its encoded entries, the sort order first. */
  lemma QueryReadBack(p: SearchParams)
    requires p.sort != "" || Given(p.page)
    ensures Split(QueryParams(p), '&') == EncodePairs(QueryEntries(p))
  {
    var encoded := EncodePairs(QueryEntries(p));
    EncodedEntriesShape(QueryEntries(p));
    assert |encoded| >= 1;
    assert forall i :: 0 <= i < |encoded| ==> '&' !in encoded[i];
    JoinSplit(encoded, '&');
  }

  /** Which entries the query holds, in order: `sort` first, then `pagination`, whose value is the page as JSON, encoded once before and once more with the entry. */
  lemma QueryEntriesOrder(p: SearchParams)
    ensures var entries := QueryEntries(p);
      && (p.sort != "" ==> entries[0] == ("sort", p.sort))
      && (Given(p.page) ==> entries[|entries| - 1] == ("pagination", EncodeURIComponent(PaginationJson(p.page.value))))
      && (forall i :: 0 <= i < |entries| ==> entries[i].0 in {"sort", "pagination"})
      && (|entries| == 2 ==> entries[0].0 != entries[1].0)
  {
  }

  /** Keys made of letters are written as they are. */
  lemma LetterKey(k: string)
    requires forall i :: 0 <= i < |k| ==> IsLetter(k[i])
    ensures EncodeURIComponent(k) == k
  {
  }

  /** The sort entry reads `sort=<encoded sort order>`. */
  lemma SortEntry(p: SearchParams, k: string)
    requires p.sort != "" && k == "sort"
    ensures EncodePairs(QueryEntries(p))[0] == k + "=" + EncodeURIComponent(p.sort)
  {
    assert forall i :: 0 <= i < |k| ==> IsLetter(k[i]);
    LetterKey(k);
    EncodePairsAt(QueryEntries(p), 0);
  }

  /** The pagination entry reads `pagination=` and the page JSON encoded twice over. */
  lemma PaginationEntry(p: SearchParams, k: string)
    requires Given(p.page) && k == "pagination"
    ensures var encoded := EncodePairs(QueryEntries(p));
      encoded[|encoded| - 1] == k + "=" + EncodeURIComponent(EncodeURIComponent(PaginationJson(p.page.value)))
  {
    assert forall i :: 0 <= i < |k| ==> IsLetter(k[i]);
    LetterKey(k);
    EncodePairsAt(QueryEntries(p), |QueryEntries(p)| - 1);
  }

  /** The pagination entry is the last, and it starts `pagination=`. */
  lemma PaginationKey(p: SearchParams, k: string)
    requires Given(p.page) && k == "pagination"
    ensures var encoded := EncodePairs(QueryEntries(p));
      StartsWith(encoded[|encoded| - 1], k + "=")
  {
    PaginationEntry(p, k);
  }

  // ---------------------------------------------------------------------------------------------
  // The whole URL

  /** The location, the filters and the query are where the builder puts them. */
  lemma Layout(p: SearchParams)
    requires LocationSegment(p).Success?
    ensures var url := BuildZillowSearchUrl(p).value;
      var head := BaseUrl + "/";
      var location := LocationSegment(p).value;
      var path := head + location + FilterSegments(p);
      && url[|head|..|head| + |location|] == location
      && url[|head| + |location|..|path|] == FilterSegments(p)
      && url[|path|..] == (if QueryParams(p) == "" then "" else "?" + QueryParams(p))
  {
    var head := BaseUrl + "/";
    var location := LocationSegment(p).value;
    var query := QueryParams(p);
    var tail := if query == "" then "" else "?" + query;
    var filters := FilterSegments(p);
    assert BuildZillowSearchUrl(p).value == head + location + filters + tail;
    Parts(head, location, filters, tail);
  }

  /** Where each of four joined texts sits in the joined text. */
  lemma Parts(head: string, location: string, filters: string, tail: string)
    ensures var url := head + location + filters + tail;
      var path := head + location + filters;
      && url[|head|..|head| + |location|] == location
      && url[|head| + |location|..|path|] == filters
      && url[|path|..] == tail
  {
    Middle(head, location, filters + tail);
    Middle(head + location, filters, tail);
    assert head + location + filters + tail == head + location + (filters + tail);
  }

  /** The characters `DashSpaces` writes are `-` or come from its input. */
  lemma {:induction false} DashSpacesChars(s: string, c: char)
    requires c != '-' && c !in s
    ensures c !in DashSpaces(s)
    decreases |s|
  {
    if |s| > 0 {
      if IsSpace(s[0]) {
        var t := TrimStart(s);
        TrimStartIsSuffix(s);
        assert forall i :: 0 <= i < |t| ==> t[i] == s[|s| - |t| + i];
        DashSpacesChars(t, c);
      } else {
        assert s == [s[0]] + s[1..];
        DashSpacesChars(s[1..], c);
      }
    }
  }

  /** None of the texts the builder writes without encoding holds a `?`. */
  predicate NoMarkInText(p: SearchParams) {
    '?' !in p.zip && '?' !in p.city && '?' !in p.state && '?' !in p.propertyType
  }

  /** Without a `?` in the text parameters, the path before the query holds none either. */
  lemma PathHasNoQuery(p: SearchParams)
    requires LocationSegment(p).Success?
    requires NoMarkInText(p)
    ensures '?' !in BaseUrl + "/" + LocationSegment(p).value + FilterSegments(p)
  {
    LocationAvoids(p);
    BodiesAvoid(p, '?');
    assert '?' !in BaseUrl;
  }

  lemma LocationAvoids(p: SearchParams)
    requires LocationSegment(p).Success?
    requires '?' !in p.zip && '?' !in p.city && '?' !in p.state
    ensures '?' !in LocationSegment(p).value
  {
    if p.zip == "" {
      LowerAvoids(p.city);
      LowerAvoids(p.state);
      DashSpacesChars(ToLower(p.city), '?');
    }
  }

  lemma LowerAvoids(s: string)
    requires '?' !in s
    ensures '?' !in ToLower(s)
  {
    forall i | 0 <= i < |s|
      ensures ToLower(s)[i] != '?'
    {
      assert s[i] != '?';
    }
  }

  /** A search URL holds a `?` exactly when there is a sort order or a page. */
  lemma SearchUrlMark(p: SearchParams)
    requires LocationSegment(p).Success?
    requires NoMarkInText(p)
    ensures '?' in BuildZillowSearchUrl(p).value <==> p.sort != "" || Given(p.page)
  {
    var path := BaseUrl + "/" + LocationSegment(p).value + FilterSegments(p);
    var query := QueryParams(p);
    assert BuildZillowSearchUrl(p).value == path + (if query != "" then "?" + query else "");
    assert '?' !in path by {
      PathHasNoQuery(p);
    }
    assert query != "" <==> p.sort != "" || Given(p.page) by {
      QueryEmpty(p);
    }
    QueryAfterPath(path, query);
  }

  /**
   * Read back, the first `?` of a search URL with a sort order or a page ends the path, and what
   * follows it, split at `&`, is the list of encoded entries.
   */
  lemma SearchUrlReadBack(p: SearchParams)
    requires LocationSegment(p).Success?
    requires NoMarkInText(p)
    requires p.sort != "" || Given(p.page)
    ensures QueryAt(BuildZillowSearchUrl(p).value, |SearchPath(p)|, EncodePairs(QueryEntries(p)))
  {
    QueryEmpty(p);
    PathHasNoQuery(p);
    QueryReadBack(p);
    QueryFollowsPath(BuildZillowSearchUrl(p).value, SearchPath(p), QueryParams(p), EncodePairs(QueryEntries(p)));
  }

  /** The first `?` of `url` is at `at`, and what follows it, split at `&`, is `entries`. */
  predicate QueryAt(url: string, at: nat, entries: seq<string>) {
    IndexOf(url, '?') == Some(at) && at < |url| && Split(url[at + 1..], '&') == entries
  }

  /** The part of a search URL before its query: the base, the location and the filters. */
  function SearchPath(p: SearchParams): string
    requires LocationSegment(p).Success?
  {
    BaseUrl + "/" + LocationSegment(p).value + FilterSegments(p)
  }

  /** A `?`-free path followed by an optional `?query` holds a `?` exactly when the query is not empty. */
  lemma QueryAfterPath(path: string, query: string)
    requires '?' !in path
    ensures '?' in path + (if query != "" then "?" + query else "") <==> query != ""
  {
    if query != "" {
      assert (path + ("?" + query))[|path|] == '?';
    } else {
      assert path + "" == path;
    }
  }

  /** After a `?`-free path, the first `?` is where the query starts, and the query reads back. */
  lemma QueryFollowsPath(url: string, path: string, query: string, entries: seq<string>)
    requires url == path + (if query != "" then "?" + query else "") && query != ""
    requires '?' !in path
    requires Split(query, '&') == entries
    ensures QueryAt(url, |path|, entries)
  {
    assert url == path + ("?" + query);
    assert url[|path|] == '?';
    assert url[..|path|] == path;
    IndexOfFirst(url, '?', |path|);
    assert url[|path| + 1..] == query;
  }

  // ---------------------------------------------------------------------------------------------
  // Worked examples

  /** Neither a ZIP code nor a city and state: the builder refuses, whatever the filters. */
  lemma MissingLocationExample(p: SearchParams)
    requires p.zip == "" && p.city == "" && p.state == ""
    ensures BuildZillowSearchUrl(p) == Failure(ErrInvalidLocation)
  {
  }

  /** With every filter asked for, the bodies are price, beds and type. */
  lemma AllSegments(p: SearchParams)
    requires PriceAsked(p) && BedsAsked(p) && p.propertyType != ""
    ensures SegmentBodies(p) == [PriceBody(p), BedsBody(p), TypeBody(p)]
  {
  }

  lemma Digits750000(n: int)
    requires n == 750000
    ensures IntToString(n) == "750000"
  {
    assert NatToString(7) == "7";
    assert NatToString(75) == "75";
    assert NatToString(750) == "750";
    assert NatToString(7500) == "7500";
    assert NatToString(75000) == "75000";
  }

  lemma Digits2000000(n: int)
    requires n == 2000000
    ensures IntToString(n) == "2000000"
  {
    assert NatToString(2) == "2";
    assert NatToString(20) == "20";
    assert NatToString(200) == "200";
    assert NatToString(2000) == "2000";
    assert NatToString(20000) == "20000";
    assert NatToString(200000) == "200000";
  }

  lemma ZipPrice(p: SearchParams)
    requires p.minPrice == Some(750000) && p.maxPrice == Some(2000000)
    ensures PriceBody(p) == "750000_2000000_price"
  {
    Digits750000(p.minPrice.value);
    Digits2000000(p.maxPrice.value);
  }

  lemma ZipBeds(p: SearchParams)
    requires p.minBeds == Some(3) && p.maxBeds.None?
    ensures BedsBody(p) == "3-_beds"
  {
    assert IntToString(3) == "3";
  }

  /** A ZIP code search: `90210_rb`, both price bounds, a lower bed bound only (`3-`), and a property type. */
  lemma ZipFiltersExample(p: SearchParams)
    requires p.zip == "90210" && p.propertyType == "condo"
    requires p.minPrice == Some(750000) && p.maxPrice == Some(2000000)
    requires p.minBeds == Some(3) && p.maxBeds.None?
    ensures LocationSegment(p) == Success("90210_rb")
    ensures SegmentBodies(p) == ["750000_2000000_price", "3-_beds", "condo_type"]
  {
    ZipLocation(p);
    AllSegments(p);
    ZipPrice(p);
    ZipBeds(p);
    ZipType(p);
  }

  lemma ZipLocation(p: SearchParams)
    requires p.zip == "90210"
    ensures LocationSegment(p) == Success("90210_rb")
  {
    assert p.zip + "_rb" == "90210_rb";
  }

  lemma ZipType(p: SearchParams)
    requires p.propertyType == "condo"
    ensures TypeBody(p) == "condo_type"
  {
  }

  /** A sort order made of letters is written as it is, after `sort=`. */
  lemma LetterSortEntry(p: SearchParams, k: string)
    requires p.sort != "" && k == "sort"
    requires forall i :: 0 <= i < |p.sort| ==> IsLetter(p.sort[i])
    ensures EncodePairs(QueryEntries(p))[0] == k + "=" + p.sort
  {
    SortEntry(p, k);
    LetterKey(p.sort);
  }

  /** `pricea` is spelt in letters, and its query entry is `sort=pricea`. */
  lemma PriceAscending(order: string)
    requires order == "pricea"
    ensures forall i :: 0 <= i < |order| ==> IsLetter(order[i])
    ensures "sort=" + order == "sort=pricea"
  {
  }

  /** A sort order spelt in letters is written as `sort=<order>`. */
  lemma LetterSortText(p: SearchParams, order: string)
    requires p.sort == order && order != ""
    requires forall i :: 0 <= i < |order| ==> IsLetter(order[i])
    ensures EncodePairs(QueryEntries(p))[0] == "sort=" + order
  {
    LetterSortEntry(p, "sort");
    assert "sort" + "=" + order == "sort=" + order;
  }

  /** The sort order of the ZIP code search is the first query entry. */
  lemma ZipSortExample(p: SearchParams, k: string)
    requires p.sort == "days" && k == "sort"
    ensures EncodePairs(QueryEntries(p))[0] == "sort=days"
  {
    LetterSortText(p, "days");
    assert "sort=" + "days" == "sort=days";
  }

  /** A city and state with nothing else: the URL is the base and the slug alone. */
  lemma AustinExample(p: SearchParams)
    requires p.zip == "" && p.city == "Austin" && p.state == "TX"
    requires p.minPrice.None? && p.maxPrice.None? && p.minBeds.None? && p.maxBeds.None?
    requires p.propertyType == "" && p.sort == "" && p.page.None?
    ensures BuildZillowSearchUrl(p) == Success("https://www.zillow.com/homes/" + "austin-tx_rb")
  {
    AustinSlug(p.city, p.state);
    assert LocationSegment(p) == Success("austin-tx_rb");
    QueryEmpty(p);
    assert FilterSegments(p) == "";
    BareUrl(p);
    assert BaseUrl + "/" == "https://www.zillow.com/homes/";
  }

  /** Without filters or query, the URL is the base and the location alone. */
  lemma BareUrl(p: SearchParams)
    requires LocationSegment(p).Success? && FilterSegments(p) == "" && QueryParams(p) == ""
    ensures BuildZillowSearchUrl(p) == Success(BaseUrl + "/" + LocationSegment(p).value)
  {
    var head := BaseUrl + "/" + LocationSegment(p).value;
    assert head + "" + "" == head;
  }

  lemma AustinSlug(city: string, state: string)
    requires city == "Austin" && state == "TX"
    ensures DashSpaces(ToLower(city)) + "-" + ToLower(state) + "_rb" == "austin-tx_rb"
  {
    LowerAustin(city);
    LowerPair(state, "tx");
    DashSpacesSpaceFree("austin");
  }

  lemma LowerAustin(city: string)
    requires city == "Austin"
    ensures ToLower(city) == "austin"
  {
    assert LowerChar(city[0]) == 'a';
  }

  /** Lower-casing two letters. */
  lemma LowerPair(s: string, t: string)
    requires |s| == 2 && |t| == 2 && LowerChar(s[0]) == t[0] && LowerChar(s[1]) == t[1]
    ensures ToLower(s) == t
  {
  }

  /** A city of two words: the space becomes a `-`, and a letter outside ASCII is kept as it is. */
  lemma SanJoseExample(p: SearchParams)
    requires p.zip == "" && p.city == "San José" && p.state == "CA"
    ensures LocationSegment(p) == Success("san-josé-ca_rb")
  {
    LowerSanJose(p.city);
    DashSpacesWords("san", " ", "josé");
    LowerPair(p.state, "ca");
    assert "san" + " " + "josé" == "san josé";
    assert "san" + "-" + "josé" == "san-josé";
    assert "san-josé" + "-" + "ca" + "_rb" == "san-josé-ca_rb";
  }

  lemma LowerSanJose(city: string)
    requires city == "San José"
    ensures ToLower(city) == "san josé"
  {
    assert LowerChar(city[0]) == 's';
    assert LowerChar(city[4]) == 'j';
  }

  lemma Digits500000(n: int)
    requires n == 500000
    ensures IntToString(n) == "500000"
  {
    assert NatToString(5) == "5";
    assert NatToString(50) == "50";
    assert NatToString(500) == "500";
    assert NatToString(5000) == "5000";
    assert NatToString(50000) == "50000";
  }

  lemma Digits1000000(n: int)
    requires n == 1000000
    ensures IntToString(n) == "1000000"
  {
    assert NatToString(1) == "1";
    assert NatToString(10) == "10";
    assert NatToString(100) == "100";
    assert NatToString(1000) == "1000";
    assert NatToString(10000) == "10000";
    assert NatToString(100000) == "100000";
  }

  lemma MiamiPrice(p: SearchParams)
    requires p.minPrice == Some(500000) && p.maxPrice == Some(1000000)
    ensures PriceBody(p) == "500000_1000000_price"
  {
    Digits500000(p.minPrice.value);
    Digits1000000(p.maxPrice.value);
  }

  lemma MiamiBeds(p: SearchParams)
    requires p.minBeds == Some(2) && p.maxBeds == Some(4)
    ensures BedsBody(p) == "2-4_beds"
  {
    assert IntToString(2) == "2";
    assert IntToString(4) == "4";
  }

  lemma MiamiSlug(city: string, state: string)
    requires city == "Miami" && state == "FL"
    ensures DashSpaces(ToLower(city)) + "-" + ToLower(state) + "_rb" == "miami-fl_rb"
  {
    assert LowerChar(city[0]) == 'm';
    assert ToLower(city) == "miami";
    LowerPair(state, "fl");
    DashSpacesSpaceFree("miami");
  }

  /** A city and state search with every filter: slug, then price, beds and type segments in that order. */
  lemma MiamiExample(p: SearchParams)
    requires p.zip == "" && p.city == "Miami" && p.state == "FL" && p.propertyType == "house"
    requires p.minPrice == Some(500000) && p.maxPrice == Some(1000000)
    requires p.minBeds == Some(2) && p.maxBeds == Some(4)
    ensures LocationSegment(p) == Success("miami-fl_rb")
    ensures SegmentBodies(p) == ["500000_1000000_price", "2-4_beds", "house_type"]
  {
    MiamiSlug(p.city, p.state);
    AllSegments(p);
    MiamiPrice(p);
    MiamiBeds(p);
    assert TypeBody(p) == "house_type";
  }

  /** The Miami search's query: the sort order first, then the page. */
  lemma MiamiQueryExample(p: SearchParams, k: string, m: string)
    requires p.sort == "pricea" && Given(p.page) && k == "sort" && m == "pagination"
    ensures var encoded := EncodePairs(QueryEntries(p));
      |encoded| == 2 && encoded[0] == "sort=pricea" && StartsWith(encoded[1], "pagination=")
  {
    var order := "pricea";
    PriceAscending(order);
    LetterSortText(p, order);
    SecondIsPage(p, m);
  }

  lemma SecondIsPage(p: SearchParams, m: string)
    requires p.sort != "" && Given(p.page) && m == "pagination"
    ensures StartsWith(EncodePairs(QueryEntries(p))[1], "pagination=")
  {
    var encoded := EncodePairs(QueryEntries(p));
    assert |encoded| == 2;
    assert StartsWith(encoded[1], m + "=") by {
      PaginationKey(p, m);
    }
    PaginationPrefix(m);
  }

  lemma PaginationPrefix(m: string)
    requires m == "pagination"
    ensures m + "=" == "pagination="
  {
  }
}
