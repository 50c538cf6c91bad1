/**
 * Shaping search results (src/utils/formatResults.ts): raw listings become `Property` records with
 * defaults for missing fields, which are then filtered by inclusive bounds, sorted by one numeric
 * field in either direction (stably, as `Array.prototype.sort` is), and cut into pages.
 */
module FormatResults {
  import opened Wrappers

  /** The canonical listing. Numbers are JavaScript numbers without NaN. */
  datatype Property = Property(
    zpid: string, address: string, price: real, beds: real, baths: real, sqft: real,
    propertyType: string, yearBuilt: real, url: string)

  /** A raw listing: every field may be absent (`None`). */
  datatype RawListing = RawListing(
    zpid: Option<string>, address: Option<string>, price: Option<real>, beds: Option<real>,
    baths: Option<real>, sqft: Option<real>, propertyType: Option<string>, yearBuilt: Option<real>,
    url: Option<string>)

  const UnknownType: string := "UNKNOWN"

  /** `field || fallback` for a string field: absent and `''` give the fallback. */
  function TextOr(field: Option<string>, fallback: string): (r: string)
    ensures field.Some? && field.value != "" ==> r == field.value
    ensures field.None? || field.value == "" ==> r == fallback
  {
    if field.Some? && field.value != "" then field.value else fallback
  }

  /** `field || 0` for a numeric field: absent and 0 give 0. */
  function NumberOr0(field: Option<real>): (r: real)
    ensures field.Some? ==> r == field.value
    ensures field.None? ==> r == 0.0
  {
    if field.Some? && field.value != 0.0 then field.value else 0.0
  }

  /** `mapApiResponseToProperty(raw)`. */
  function MapApiResponseToProperty(raw: RawListing): (p: Property)
    ensures p.zpid == TextOr(raw.zpid, "") && p.address == TextOr(raw.address, "") && p.url == TextOr(raw.url, "")
    ensures p.propertyType == TextOr(raw.propertyType, UnknownType)
    ensures p.price == NumberOr0(raw.price) && p.beds == NumberOr0(raw.beds) && p.baths == NumberOr0(raw.baths)
    ensures p.sqft == NumberOr0(raw.sqft) && p.yearBuilt == NumberOr0(raw.yearBuilt)
  {
    Property(
      TextOr(raw.zpid, ""), TextOr(raw.address, ""), NumberOr0(raw.price), NumberOr0(raw.beds),
      NumberOr0(raw.baths), NumberOr0(raw.sqft), TextOr(raw.propertyType, UnknownType),
      NumberOr0(raw.yearBuilt), TextOr(raw.url, ""))
  }

  /** A listing with every field given and non-empty is copied as it is. */
  lemma MapCompleteListing(raw: RawListing)
    requires raw.zpid.Some? && raw.address.Some? && raw.price.Some? && raw.beds.Some? && raw.baths.Some?
    requires raw.sqft.Some? && raw.propertyType.Some? && raw.yearBuilt.Some? && raw.url.Some?
    requires raw.propertyType.value != ""
    ensures MapApiResponseToProperty(raw) == Property(
      raw.zpid.value, raw.address.value, raw.price.value, raw.beds.value, raw.baths.value,
      raw.sqft.value, raw.propertyType.value, raw.yearBuilt.value, raw.url.value)
  {
  }

  /** An empty raw listing gets every default. */
  lemma MapEmptyListing()
    ensures MapApiResponseToProperty(RawListing(None, None, None, None, None, None, None, None, None))
            == Property("", "", 0.0, 0.0, 0.0, 0.0, UnknownType, 0.0, "")
  {
  }

  // ---------------------------------------------------------------------------------
  // filterProperties

  datatype FilterOptions = FilterOptions(
    minPrice: Option<real>, maxPrice: Option<real>, minBeds: Option<real>, maxBeds: Option<real>,
    minBaths: Option<real>, maxBaths: Option<real>, propertyType: Option<seq<string>>)

  const NoFilter: FilterOptions := FilterOptions(None, None, None, None, None, None, None)

  predicate AtLeast(x: real, bound: Option<real>) {
    bound.None? || x >= bound.value
  }

  predicate AtMost(x: real, bound: Option<real>) {
    bound.None? || x <= bound.value
  }

  /** The callback of `filter`: every supplied bound inclusively, and the type list when one is supplied. */
  predicate Keeps(o: FilterOptions, p: Property) {
    && AtLeast(p.price, o.minPrice) && AtMost(p.price, o.maxPrice)
    && AtLeast(p.beds, o.minBeds) && AtMost(p.beds, o.maxBeds)
    && AtLeast(p.baths, o.minBaths) && AtMost(p.baths, o.maxBaths)
    && (o.propertyType.None? || p.propertyType in o.propertyType.value)
  }

  /** `filterProperties(properties, options)`. */
  function FilterProperties(properties: seq<Property>, o: FilterOptions): (r: seq<Property>)
    ensures |r| <= |properties|
    ensures forall p :: p in r <==> p in properties && Keeps(o, p)
  {
    if |properties| == 0 then []
    else (if Keeps(o, properties[0]) then [properties[0]] else []) + FilterProperties(properties[1..], o)
  }

  /** `a` is `b` with some elements left out and the rest in their order. */
  predicate IsSubsequence<T(==)>(a: seq<T>, b: seq<T>)
    decreases |b|
  {
    |a| == 0 || (|b| > 0 && ((a[0] == b[0] && IsSubsequence(a[1..], b[1..])) || IsSubsequence(a, b[1..])))
  }

  /** Filtering keeps the order of what it keeps. */
  lemma {:induction false} FilterIsSubsequence(properties: seq<Property>, o: FilterOptions)
    ensures IsSubsequence(FilterProperties(properties, o), properties)
    decreases |properties|
  {
    if |properties| > 0 {
      FilterIsSubsequence(properties[1..], o);
      var rest := FilterProperties(properties[1..], o);
      if Keeps(o, properties[0]) {
        assert ([properties[0]] + rest)[1..] == rest;
      } else {
        assert [] + rest == rest;
      }
    }
  }

  /** Filtering keeps each kept listing as often as it occurs, duplicates included. */
  lemma {:induction false} FilterKeepsCounts(properties: seq<Property>, o: FilterOptions, p: Property)
    requires Keeps(o, p)
    ensures multiset(FilterProperties(properties, o))[p] == multiset(properties)[p]
    decreases |properties|
  {
    if |properties| > 0 {
      var h, t := properties[0], properties[1..];
      FilterKeepsCounts(t, o, p);
      assert properties == [h] + t;
      var head := if Keeps(o, h) then [h] else [];
      assert FilterProperties(properties, o) == head + FilterProperties(t, o);
      assert multiset(head)[p] == multiset([h])[p];
    }
  }

  /** The bounds are inclusive: a listing exactly on every bound is kept. */
  lemma BoundsInclusive(p: Property, o: FilterOptions)
    requires o.minPrice == Some(p.price) && o.maxPrice == Some(p.price)
    requires o.minBeds == Some(p.beds) && o.maxBeds == Some(p.beds)
    requires o.minBaths == Some(p.baths) && o.maxBaths == Some(p.baths)
    requires o.propertyType == Some([p.propertyType])
    ensures FilterProperties([p], o) == [p]
  {
  }

  /** Empty options keep everything. */
  lemma {:induction false} FilterDefaults(properties: seq<Property>)
    ensures FilterProperties(properties, NoFilter) == properties
    decreases |properties|
  {
    if |properties| > 0 {
      FilterDefaults(properties[1..]);
      assert Keeps(NoFilter, properties[0]);
      assert properties == [properties[0]] + properties[1..];
    }
  }

  /** A supplied but empty type list keeps nothing. */
  lemma {:induction false} FilterEmptyTypes(properties: seq<Property>, o: FilterOptions)
    requires o.propertyType == Some([])
    ensures FilterProperties(properties, o) == []
    decreases |properties|
  {
    if |properties| > 0 {
      FilterEmptyTypes(properties[1..], o);
      assert !Keeps(o, properties[0]);
    }
  }

  // ---------------------------------------------------------------------------------
  // sortProperties

  datatype SortField = Price | Beds | Baths
  /** One of the six `SortKey` values: a field and a direction. */
  datatype SortKey = SortKey(field: SortField, descending: bool)

  function FieldOf(p: Property, f: SortField): real {
    match f
    case Price => p.price
    case Beds => p.beds
    case Baths => p.baths
  }

  /** The comparator's sign: `a.field - b.field`, or `b.field - a.field` descending. */
  function Compare(key: SortKey, a: Property, b: Property): real {
    if key.descending then FieldOf(b, key.field) - FieldOf(a, key.field)
    else FieldOf(a, key.field) - FieldOf(b, key.field)
  }

  predicate OrderedBy(key: SortKey, s: seq<Property>) {
    forall i, j :: 0 <= i < j < |s| ==> Compare(key, s[i], s[j]) <= 0.0
  }

  /** Places `x` after every element that does not compare greater, so equal keys keep their order. */
  function InsertSorted(key: SortKey, x: Property, s: seq<Property>): (r: seq<Property>)
    ensures multiset(r) == multiset(s) + multiset{x}
  {
    if |s| == 0 then [x]
    else if Compare(key, s[0], x) > 0.0 then [x] + s
    else
      assert s == [s[0]] + s[1..];
      [s[0]] + InsertSorted(key, x, s[1..])
  }

  /** Inserting into an ordered sequence keeps it ordered. */
  lemma {:induction false} InsertSortedOrdered(key: SortKey, x: Property, s: seq<Property>)
    requires OrderedBy(key, s)
    ensures OrderedBy(key, InsertSorted(key, x, s))
  {
    if |s| > 0 && Compare(key, s[0], x) <= 0.0 {
      var rest := InsertSorted(key, x, s[1..]);
      InsertSortedOrdered(key, x, s[1..]);
      forall j | 0 <= j < |rest|
        ensures Compare(key, s[0], rest[j]) <= 0.0
      {
        assert rest[j] in multiset(rest);
        assert rest[j] == x || rest[j] in multiset(s[1..]);
      }
    }
  }

  /** `[...properties].sort(sortStrategies[key])`: a sorted copy; the input is a value and stays as it was. */
  function SortProperties(properties: seq<Property>, key: SortKey): (r: seq<Property>)
    ensures OrderedBy(key, r)
    ensures multiset(r) == multiset(properties)
    decreases |properties|
  {
    if |properties| == 0 then []
    else
      var init := properties[..|properties| - 1];
      assert properties == init + [properties[|properties| - 1]];
      var sorted := SortProperties(init, key);
      InsertSortedOrdered(key, properties[|properties| - 1], sorted);
      InsertSorted(key, properties[|properties| - 1], sorted)
  }

  /** Ascending and descending orders put the first and last extremes at the two ends. */
  lemma SortedEnds(properties: seq<Property>, key: SortKey, i: nat)
    requires i < |properties|
    ensures var r := SortProperties(properties, key);
      |r| == |properties|
      && (!key.descending ==> FieldOf(r[0], key.field) <= FieldOf(properties[i], key.field) <= FieldOf(r[|r| - 1], key.field))
      && (key.descending ==> FieldOf(r[0], key.field) >= FieldOf(properties[i], key.field) >= FieldOf(r[|r| - 1], key.field))
  {
    var r := SortProperties(properties, key);
    assert |r| == |multiset(r)| == |multiset(properties)| == |properties|;
    assert properties[i] in multiset(properties);
    var k :| 0 <= k < |r| && r[k] == properties[i];
    if k > 0 {
      assert Compare(key, r[0], r[k]) <= 0.0;
    }
    if k < |r| - 1 {
      assert Compare(key, r[k], r[|r| - 1]) <= 0.0;
    }
  }

  // ---------------------------------------------------------------------------------
  // paginateProperties

  datatype Page<T> = Page(items: seq<T>, totalItems: nat, currentPage: int, totalPages: int, itemsPerPage: int)

  /** `Math.ceil(n / d)` for a natural `n` and a positive `d`. */
  function CeilDiv(n: nat, d: nat): (q: nat)
    requires d >= 1
    ensures (q - 1) * d < n <= q * d || (n == 0 && q == 0)
  {
    (n + d - 1) / d
  }

  /** `Math.ceil(n / perPage) || 1`: the page count, at least one. */
  function TotalPages(n: nat, perPage: nat): (t: nat)
    requires perPage >= 1
    ensures t >= 1
    ensures n == 0 ==> t == 1
    ensures n > 0 ==> (t - 1) * perPage < n <= t * perPage
  {
    var q := CeilDiv(n, perPage);
    if q == 0 then 1 else q
  }

  /** `Math.max(1, Math.min(page, totalPages))`. */
  function ClampPage(page: int, totalPages: int): (c: int)
    requires totalPages >= 1
    ensures 1 <= c <= totalPages
    ensures 1 <= page <= totalPages ==> c == page
    ensures page < 1 ==> c == 1
    ensures page > totalPages ==> c == totalPages
  {
    if page < 1 then 1 else if page > totalPages then totalPages else page
  }

  /** `items.slice(start, end)` for `0 <= start`: the end is clamped to the length, an empty result past it. */
  function Slice<T>(items: seq<T>, start: nat, end: nat): (r: seq<T>)
    ensures start <= |items| ==> r == items[start..if end <= |items| then (if end < start then start else end) else |items|]
    ensures start > |items| ==> r == []
  {
    if start > |items| then []
    else
      var e := if end <= |items| then (if end < start then start else end) else |items|;
      items[start..e]
  }

  /** Where page `page` starts in the list, before the start is clamped to the length. */
  function PageStart(page: nat, itemsPerPage: nat): nat
    requires page >= 1
  {
    (page - 1) * itemsPerPage
  }

  /**
   * `paginateProperties(items, page, itemsPerPage)`; a page size below 1 is outside the model.
   * The page count is the least that holds every item, and 1 for an empty list; the requested
   * page is clamped into `[1, totalPages]`. The page holds the `itemsPerPage` items from `(currentPage-1)·itemsPerPage` on, or the rest
   * when fewer, and is never empty unless the list is.
   */
  function Paginate<T>(items: seq<T>, page: int, itemsPerPage: nat): (p: Page<T>)
    requires itemsPerPage >= 1
    ensures p.totalItems == |items| && p.itemsPerPage == itemsPerPage
    ensures |items| == 0 ==> p.totalPages == 1
    ensures |items| > 0 ==> (p.totalPages - 1) * itemsPerPage < |items| <= p.totalPages * itemsPerPage
    ensures 1 <= p.currentPage <= p.totalPages
    ensures 1 <= page <= p.totalPages ==> p.currentPage == page
    ensures page < 1 ==> p.currentPage == 1
    ensures page > p.totalPages ==> p.currentPage == p.totalPages
    ensures var start := PageStart(p.currentPage, itemsPerPage);
      && start <= |items|
      && p.items == items[start..if start + itemsPerPage <= |items| then start + itemsPerPage else |items|]
    ensures |p.items| <= itemsPerPage
    ensures |items| > 0 ==> |p.items| >= 1
  {
    var totalPages := TotalPages(|items|, itemsPerPage);
    var currentPage := ClampPage(page, totalPages);
    var start := PageStart(currentPage, itemsPerPage);
    assert |items| > 0 ==> start < |items| by {
      if |items| > 0 {
        MulMonotone(currentPage - 1, totalPages - 1, itemsPerPage);
      }
    }
    Page(Slice(items, start, start + itemsPerPage), |items|, currentPage, totalPages, itemsPerPage)
  }

  lemma MulMonotone(a: nat, b: nat, c: nat)
    requires a <= b
    ensures a * c <= b * c
  {
  }

  /** Reading page after page from the first one gives back every item, in order. */
  function PagesFrom<T>(items: seq<T>, page: nat, itemsPerPage: nat): seq<T>
    requires itemsPerPage >= 1 && page >= 1
    decreases TotalPages(|items|, itemsPerPage) - page + 1
  {
    if page > TotalPages(|items|, itemsPerPage) then []
    else Paginate(items, page, itemsPerPage).items + PagesFrom(items, page + 1, itemsPerPage)
  }

  lemma SliceSplit<T>(items: seq<T>, i: nat, j: nat)
    requires i <= j <= |items|
    ensures items[i..] == items[i..j] + items[j..]
  {
  }

  /** Reading from page `page` on gives back the list from that page's start. */
  lemma {:induction false} PagesFromSuffix<T>(items: seq<T>, page: nat, itemsPerPage: nat)
    requires itemsPerPage >= 1 && 1 <= page
    requires page <= TotalPages(|items|, itemsPerPage) + 1
    ensures var start := PageStart(page, itemsPerPage);
      PagesFrom(items, page, itemsPerPage) == items[if start <= |items| then start else |items|..]
    decreases TotalPages(|items|, itemsPerPage) - page + 1
  {
    var t := TotalPages(|items|, itemsPerPage);
    var start := PageStart(page, itemsPerPage);
    if page > t {
      assert start >= |items| by {
        assert page - 1 == t;
      }
    } else {
      PagesFromSuffix(items, page + 1, itemsPerPage);
      var next := PageStart(page + 1, itemsPerPage);
      assert next == start + itemsPerPage;
      if next <= |items| {
        SliceSplit(items, start, next);
      }
    }
  }

  /** The pages partition the list: concatenated in order they are the whole list. */
  lemma PagesCoverAll<T>(items: seq<T>, itemsPerPage: nat)
    requires itemsPerPage >= 1
    ensures PagesFrom(items, 1, itemsPerPage) == items
  {
    PagesFromSuffix(items, 1, itemsPerPage);
  }

  function Empty<T>(): seq<T> { [] }

  /** An empty list is one empty page. */
  lemma PaginateEmpty<T>(page: int, itemsPerPage: nat)
    requires itemsPerPage >= 1
    ensures Paginate(Empty<T>(), page, itemsPerPage) == Page([], 0, 1, 1, itemsPerPage)
  {
  }

  /** Three items one per page: page 2 holds the second, of three pages. */
  lemma PaginateSecondOfThree<T>(a: T, b: T, c: T)
    ensures Paginate([a, b, c], 2, 1) == Page([b], 3, 2, 3, 1)
  {
  }

  /** A page past the end is clamped to the last page. */
  lemma PaginatePastEnd<T>(a: T, b: T, c: T)
    ensures Paginate([a, b, c], 9, 2) == Page([c], 3, 2, 2, 2)
  {
  }
}
