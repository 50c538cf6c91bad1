/**
 * The `filterState` record of `buildSearchUrl` (src/utils/buildSearchUrl.ts): one group per
 * price, bed and bath range holding only the bounds that were given, then the home type and the
 * sort order, each added only when given.
 */
module SearchFilter {
  import opened Text
  import opened Js

  /** The destructured parameters; a parameter that was not passed is `Undefined`. */
  datatype SearchRequest = SearchRequest(
    location: JsValue,
    minPrice: JsValue, maxPrice: JsValue,
    minBeds: JsValue, maxBeds: JsValue,
    minBaths: JsValue, maxBaths: JsValue,
    propertyType: JsValue, sortBy: JsValue,
    page: JsValue, pageSize: JsValue)

  // ---------------------------------------------------------------------------------------------
  // JavaScript objects as ordered entry lists

  /** `key` is not among the object's own keys. */
  predicate KeyAbsent(obj: seq<(string, JsValue)>, key: string) {
    forall i :: 0 <= i < |obj| ==> obj[i].0 != key
  }

  /** No key is listed twice, as in any JavaScript object. */
  predicate UniqueKeys(obj: seq<(string, JsValue)>) {
    forall i, j :: 0 <= i < j < |obj| ==> obj[i].0 != obj[j].0
  }

  /** `obj[key] = v`: an existing property keeps its place, a new one goes last. */
  function Assign(obj: seq<(string, JsValue)>, key: string, v: JsValue): (r: seq<(string, JsValue)>)
    ensures Lookup(r, key) == v
    ensures forall k :: k != key ==> Lookup(r, k) == Lookup(obj, k)
    ensures KeyAbsent(obj, key) ==> r == obj + [(key, v)]
    decreases |obj|
  {
    if |obj| == 0 then [(key, v)]
    else if obj[0].0 == key then [(key, v)] + obj[1..]
    else [obj[0]] + Assign(obj[1..], key, v)
  }

  /** The object's own keys. */
  function KeySet(obj: seq<(string, JsValue)>): set<string>
    decreases |obj|
  {
    if |obj| == 0 then {} else {obj[0].0} + KeySet(obj[1..])
  }

  lemma {:induction false} KeySetAbsent(obj: seq<(string, JsValue)>, key: string)
    ensures key !in KeySet(obj) <==> KeyAbsent(obj, key)
    decreases |obj|
  {
    if |obj| > 0 {
      KeySetAbsent(obj[1..], key);
    }
  }

  /** Assigning adds `key` to the object's keys and touches no other key. */
  lemma {:induction false} AssignKeys(obj: seq<(string, JsValue)>, key: string, v: JsValue)
    ensures KeySet(Assign(obj, key, v)) == KeySet(obj) + {key}
    decreases |obj|
  {
    var r := Assign(obj, key, v);
    if |obj| == 0 {
      assert r == [(key, v)];
      assert r[1..] == [];
    } else if obj[0].0 == key {
      assert r[1..] == obj[1..];
    } else {
      AssignKeys(obj[1..], key, v);
      assert r[1..] == Assign(obj[1..], key, v);
    }
  }

  lemma UniqueCons(x: (string, JsValue), t: seq<(string, JsValue)>)
    requires UniqueKeys(t) && KeyAbsent(t, x.0)
    ensures UniqueKeys([x] + t)
  {
    var s := [x] + t;
    forall i, j | 0 <= i < j < |s|
      ensures s[i].0 != s[j].0
    {
      if i > 0 {
        assert s[i] == t[i - 1];
      }
      assert s[j] == t[j - 1];
    }
  }

  /** Assigning never lists a key twice. */
  lemma {:induction false} AssignUnique(obj: seq<(string, JsValue)>, key: string, v: JsValue)
    requires UniqueKeys(obj)
    ensures UniqueKeys(Assign(obj, key, v))
    decreases |obj|
  {
    var r := Assign(obj, key, v);
    if |obj| > 0 {
      if obj[0].0 == key {
        assert forall j :: 1 <= j < |r| ==> r[j] == obj[j];
      } else {
        var tail := obj[1..];
        AssignUnique(tail, key, v);
        AssignKeys(tail, key, v);
        assert KeyAbsent(tail, obj[0].0);
        KeySetAbsent(tail, obj[0].0);
        KeySetAbsent(Assign(tail, key, v), obj[0].0);
        UniqueCons(obj[0], Assign(tail, key, v));
      }
    }
  }

  /** `{ ...(v || {}) }`: the own entries of an object, or none. */
  function SpreadOrEmpty(v: JsValue): seq<(string, JsValue)> {
    if v.Obj? then v.entries else []
  }

  /** `o.key` on an object; `undefined` on anything else. */
  function Field(o: JsValue, key: string): JsValue {
    if o.Obj? then Lookup(o.entries, key) else Undefined
  }

  // ---------------------------------------------------------------------------------------------
  // `filterState`, statement by statement

  /** `if (v !== undefined) filterState.<group> = { ...(filterState.<group> || {}), <bound>: v }` */
  function SetBound(fs: seq<(string, JsValue)>, group: string, bound: string, v: JsValue): seq<(string, JsValue)> {
    if v == Undefined then fs
    else Assign(fs, group, Obj(Assign(SpreadOrEmpty(Lookup(fs, group)), bound, v)))
  }

  /** `if (v !== undefined) filterState.<key> = value` */
  function SetIfGiven(fs: seq<(string, JsValue)>, key: string, v: JsValue, value: JsValue): seq<(string, JsValue)> {
    if v == Undefined then fs else Assign(fs, key, value)
  }

  /**
   * The eight assignments of the source, in their order. Together they build exactly the
   * one-record form `FilterState`: the groups present, in the order price, beds, baths,
   * homeType, sortSelection.
   */
  function FilterStateSteps(r: SearchRequest): (steps: seq<(string, JsValue)>)
    ensures steps == FilterState(r)
  {
    GroupsAgree(r);
    Distinct();
    GroupKeys(r, "homeType");
    GroupKeys(r, "sortSelection");
    TailSteps(GroupEntries(r), "homeType", "sortSelection", r.propertyType, r.sortBy);
    var s1 := SetBound([], "price", "min", r.minPrice);
    var s2 := SetBound(s1, "price", "max", r.maxPrice);
    var s3 := SetBound(s2, "beds", "min", r.minBeds);
    var s4 := SetBound(s3, "beds", "max", r.maxBeds);
    var s5 := SetBound(s4, "baths", "min", r.minBaths);
    var s6 := SetBound(s5, "baths", "max", r.maxBaths);
    var s7 := SetIfGiven(s6, "homeType", r.propertyType, Arr([r.propertyType]));
    SetIfGiven(s7, "sortSelection", r.sortBy, Obj([("value", r.sortBy)]))
  }

  // ---------------------------------------------------------------------------------------------
  // `filterState`, as one record

  /** An entry that is there only when `present`. */
  function Entry(present: bool, key: string, v: JsValue): seq<(string, JsValue)> {
    if present then [(key, v)] else []
  }

  /** A `{min, max}` group holding just the bounds that were given, `min` first. */
  function Range(min: JsValue, max: JsValue): seq<(string, JsValue)> {
    Entry(Given(min), "min", min) + Entry(Given(max), "max", max)
  }

  predicate Given(v: JsValue) {
    v != Undefined
  }

  /** The filter record: each group present when one of its bounds is given, in a fixed order. */
  function FilterState(r: SearchRequest): seq<(string, JsValue)> {
    Entry(Given(r.minPrice) || Given(r.maxPrice), "price", Obj(Range(r.minPrice, r.maxPrice)))
    + Entry(Given(r.minBeds) || Given(r.maxBeds), "beds", Obj(Range(r.minBeds, r.maxBeds)))
    + Entry(Given(r.minBaths) || Given(r.maxBaths), "baths", Obj(Range(r.minBaths, r.maxBaths)))
    + Entry(Given(r.propertyType), "homeType", Arr([r.propertyType]))
    + Entry(Given(r.sortBy), "sortSelection", Obj([("value", r.sortBy)]))
  }

  /** The two assignments of one group, onto a record that does not have the group yet. */
  lemma GroupSteps(fs: seq<(string, JsValue)>, group: string, min: JsValue, max: JsValue, mn: string, mx: string)
    requires KeyAbsent(fs, group) && mn != mx
    ensures SetBound(SetBound(fs, group, mn, min), group, mx, max)
      == fs + Entry(Given(min) || Given(max), group, Group(mn, mx, min, max))
  {
    var s1 := SetBound(fs, group, mn, min);
    var s2 := SetBound(s1, group, mx, max);
    var e := Entry(Given(min) || Given(max), group, Group(mn, mx, min, max));
    if Given(min) {
      MinStep(fs, group, min, mn);
      if Given(max) {
        MaxAfterMin(fs, group, min, max, mn, mx);
        assert [(mn, min)] + [(mx, max)] == [(mn, min), (mx, max)];
        assert e == [(group, Obj([(mn, min), (mx, max)]))];
      } else {
        assert s2 == s1;
        assert [(mn, min)] + [] == [(mn, min)];
        assert e == [(group, Obj([(mn, min)]))];
      }
    } else {
      assert s1 == fs;
      if Given(max) {
        MinStep(fs, group, max, mx);
        assert [] + [(mx, max)] == [(mx, max)];
        assert e == [(group, Obj([(mx, max)]))];
      } else {
        assert s2 == fs && e == [];
      }
    }
    assert s2 == fs + e;
  }

  /** A given lower bound opens the group with that one entry. */
  lemma MinStep(fs: seq<(string, JsValue)>, group: string, min: JsValue, mn: string)
    requires KeyAbsent(fs, group) && Given(min)
    ensures SetBound(fs, group, mn, min) == fs + [(group, Obj([(mn, min)]))]
  {
    LookupAbsent(fs, group);
    assert Assign([], mn, min) == [(mn, min)];
  }

  /** A given upper bound joins the lower bound already in the group. */
  lemma MaxAfterMin(fs: seq<(string, JsValue)>, group: string, min: JsValue, max: JsValue, mn: string, mx: string)
    requires KeyAbsent(fs, group) && Given(min) && Given(max) && mn != mx
    ensures SetBound(fs + [(group, Obj([(mn, min)]))], group, mx, max) == fs + [(group, Obj([(mn, min), (mx, max)]))]
  {
    var x := Obj([(mn, min)]);
    LookupLast(fs, group, x);
    assert Assign([(mn, min)], mx, max) == [(mn, min), (mx, max)];
    AssignLast(fs, group, x, Obj([(mn, min), (mx, max)]));
  }

  lemma {:induction false} LookupAbsent(fs: seq<(string, JsValue)>, key: string)
    requires KeyAbsent(fs, key)
    ensures Lookup(fs, key) == Undefined
    decreases |fs|
  {
    if |fs| > 0 {
      LookupAbsent(fs[1..], key);
    }
  }

  lemma {:induction false} LookupLast(fs: seq<(string, JsValue)>, key: string, v: JsValue)
    requires KeyAbsent(fs, key)
    ensures Lookup(fs + [(key, v)], key) == v
    decreases |fs|
  {
    if |fs| > 0 {
      assert (fs + [(key, v)])[1..] == fs[1..] + [(key, v)];
      LookupLast(fs[1..], key, v);
    }
  }

  lemma {:induction false} AssignLast(fs: seq<(string, JsValue)>, key: string, v: JsValue, w: JsValue)
    requires KeyAbsent(fs, key)
    ensures Assign(fs + [(key, v)], key, w) == fs + [(key, w)]
    decreases |fs|
  {
    if |fs| > 0 {
      assert (fs + [(key, v)])[1..] == fs[1..] + [(key, v)];
      AssignLast(fs[1..], key, v, w);
    }
  }

  /** The entries of one group carry only the group's own key. */
  lemma EntryKeys(present: bool, key: string, v: JsValue, other: string)
    requires other != key
    ensures KeyAbsent(Entry(present, key, v), other)
  {
  }

  /** The price, beds and baths groups of the one-record form. */
  function GroupEntries(r: SearchRequest): seq<(string, JsValue)> {
    Entry(Given(r.minPrice) || Given(r.maxPrice), "price", Obj(Range(r.minPrice, r.maxPrice)))
    + Entry(Given(r.minBeds) || Given(r.maxBeds), "beds", Obj(Range(r.minBeds, r.maxBeds)))
    + Entry(Given(r.minBaths) || Given(r.maxBaths), "baths", Obj(Range(r.minBaths, r.maxBaths)))
  }

  /** The six bound assignments build the three groups. */
  lemma GroupsAgree(r: SearchRequest)
    ensures var s2 := SetBound(SetBound([], "price", "min", r.minPrice), "price", "max", r.maxPrice);
      var s4 := SetBound(SetBound(s2, "beds", "min", r.minBeds), "beds", "max", r.maxBeds);
      SetBound(SetBound(s4, "baths", "min", r.minBaths), "baths", "max", r.maxBaths) == GroupEntries(r)
  {
    Distinct();
    ThreeGroups("price", "beds", "baths", "min", "max",
      r.minPrice, r.maxPrice, r.minBeds, r.maxBeds, r.minBaths, r.maxBaths);
  }

  /** A group made of the bounds given, under the names `mn` and `mx`. */
  function Group(mn: string, mx: string, min: JsValue, max: JsValue): JsValue {
    Obj(Entry(Given(min), mn, min) + Entry(Given(max), mx, max))
  }

  /** Three groups under different names, each built by its two bound assignments. */
  lemma ThreeGroups(g1: string, g2: string, g3: string, mn: string, mx: string,
                    a1: JsValue, b1: JsValue, a2: JsValue, b2: JsValue, a3: JsValue, b3: JsValue)
    requires g1 != g2 && g1 != g3 && g2 != g3 && mn != mx
    ensures var s2 := SetBound(SetBound([], g1, mn, a1), g1, mx, b1);
      var s4 := SetBound(SetBound(s2, g2, mn, a2), g2, mx, b2);
      SetBound(SetBound(s4, g3, mn, a3), g3, mx, b3)
        == Entry(Given(a1) || Given(b1), g1, Group(mn, mx, a1, b1))
         + Entry(Given(a2) || Given(b2), g2, Group(mn, mx, a2, b2))
         + Entry(Given(a3) || Given(b3), g3, Group(mn, mx, a3, b3))
  {
    var e1 := Entry(Given(a1) || Given(b1), g1, Group(mn, mx, a1, b1));
    var e2 := Entry(Given(a2) || Given(b2), g2, Group(mn, mx, a2, b2));
    var s2 := SetBound(SetBound([], g1, mn, a1), g1, mx, b1);
    GroupSteps([], g1, a1, b1, mn, mx);
    assert [] + e1 == e1;
    assert s2 == e1;
    EntryKeys(Given(a1) || Given(b1), g1, Group(mn, mx, a1, b1), g2);
    var s4 := SetBound(SetBound(s2, g2, mn, a2), g2, mx, b2);
    GroupSteps(e1, g2, a2, b2, mn, mx);
    assert s4 == e1 + e2;
    EntryKeys(Given(a1) || Given(b1), g1, Group(mn, mx, a1, b1), g3);
    EntryKeys(Given(a2) || Given(b2), g2, Group(mn, mx, a2, b2), g3);
    KeyAbsentConcat(e1, e2, g3);
    GroupSteps(e1 + e2, g3, a3, b3, mn, mx);
  }

  lemma KeyAbsentConcat(a: seq<(string, JsValue)>, b: seq<(string, JsValue)>, key: string)
    requires KeyAbsent(a, key) && KeyAbsent(b, key)
    ensures KeyAbsent(a + b, key)
  {
  }

  /** None of the three groups is called `key`, unless `key` is one of their names. */
  lemma GroupKeys(r: SearchRequest, key: string)
    requires key != "price" && key != "beds" && key != "baths"
    ensures KeyAbsent(GroupEntries(r), key)
  {
  }

  /** The home type and sort assignments add fresh keys at the end. */
  lemma TailSteps(s: seq<(string, JsValue)>, kh: string, ks: string, pt: JsValue, sb: JsValue)
    requires KeyAbsent(s, kh) && KeyAbsent(s, ks) && kh != ks
    ensures SetIfGiven(SetIfGiven(s, kh, pt, Arr([pt])), ks, sb, Obj([("value", sb)]))
      == s + Entry(Given(pt), kh, Arr([pt])) + Entry(Given(sb), ks, Obj([("value", sb)]))
  {
    var s7 := SetIfGiven(s, kh, pt, Arr([pt]));
    assert s7 == s + Entry(Given(pt), kh, Arr([pt]));
    assert KeyAbsent(s7, ks);
  }

  /** The five group keys are different from one another. */
  lemma Distinct()
    ensures "price" != "beds" && "price" != "baths" && "price" != "homeType" && "price" != "sortSelection"
    ensures "beds" != "baths" && "beds" != "homeType" && "beds" != "sortSelection"
    ensures "baths" != "homeType" && "baths" != "sortSelection" && "homeType" != "sortSelection"
    ensures "min" != "max"
  {
    assert "price"[1] != "beds"[1];
    assert "beds"[1] != "baths"[1];
  }

  // ---------------------------------------------------------------------------------------------
  // Reading `filterState` back

  /** What `filterState[key]` holds, key by key. */
  function FilterValue(r: SearchRequest, key: string): JsValue {
    if key == "price" then GroupValue(r.minPrice, r.maxPrice)
    else if key == "beds" then GroupValue(r.minBeds, r.maxBeds)
    else if key == "baths" then GroupValue(r.minBaths, r.maxBaths)
    else if key == "homeType" then (if Given(r.propertyType) then Arr([r.propertyType]) else Undefined)
    else if key == "sortSelection" then (if Given(r.sortBy) then Obj([("value", r.sortBy)]) else Undefined)
    else Undefined
  }

  /** A group is there when one of its bounds is. */
  function GroupValue(min: JsValue, max: JsValue): JsValue {
    if Given(min) || Given(max) then Obj(Range(min, max)) else Undefined
  }

  lemma LookupEntry(present: bool, k: string, v: JsValue, rest: seq<(string, JsValue)>, key: string)
    ensures Lookup(Entry(present, k, v) + rest, key) == if present && k == key then v else Lookup(rest, key)
  {
    if present {
      assert (Entry(present, k, v) + rest)[1..] == rest;
    } else {
      assert Entry(present, k, v) + rest == rest;
    }
  }

  /** Each property of the filter record built by the eight statements is the one asked for. */
  lemma FilterLookup(r: SearchRequest, key: string)
    ensures Lookup(FilterStateSteps(r), key) == FilterValue(r, key)
  {
    RecordLookup(r, key);
  }

  /** The one-record form, read by key. */
  lemma RecordLookup(r: SearchRequest, key: string)
    ensures Lookup(FilterState(r), key) == FilterValue(r, key)
  {
    var p1, v1 := Given(r.minPrice) || Given(r.maxPrice), Obj(Range(r.minPrice, r.maxPrice));
    var p2, v2 := Given(r.minBeds) || Given(r.maxBeds), Obj(Range(r.minBeds, r.maxBeds));
    var p3, v3 := Given(r.minBaths) || Given(r.maxBaths), Obj(Range(r.minBaths, r.maxBaths));
    var p4, v4 := Given(r.propertyType), Arr([r.propertyType]);
    var p5, v5 := Given(r.sortBy), Obj([("value", r.sortBy)]);
    var k1, k2, k3, k4, k5 := "price", "beds", "baths", "homeType", "sortSelection";
    Distinct();
    var e1, e2, e3, e4, e5 := Entry(p1, k1, v1), Entry(p2, k2, v2), Entry(p3, k3, v3), Entry(p4, k4, v4), Entry(p5, k5, v5);
    assert FilterState(r) == e1 + e2 + e3 + e4 + e5;
    LookupFive(p1, k1, v1, p2, k2, v2, p3, k3, v3, p4, k4, v4, p5, k5, v5, key);
  }

  /** Looking a key up in five optional entries under different keys finds the entry of that key, if present. */
  lemma LookupFive(p1: bool, k1: string, v1: JsValue, p2: bool, k2: string, v2: JsValue,
                   p3: bool, k3: string, v3: JsValue, p4: bool, k4: string, v4: JsValue,
                   p5: bool, k5: string, v5: JsValue, key: string)
    requires k1 != k2 && k1 != k3 && k1 != k4 && k1 != k5 && k2 != k3 && k2 != k4 && k2 != k5
    requires k3 != k4 && k3 != k5 && k4 != k5
    ensures Lookup(Entry(p1, k1, v1) + Entry(p2, k2, v2) + Entry(p3, k3, v3) + Entry(p4, k4, v4) + Entry(p5, k5, v5), key)
      == if key == k1 then (if p1 then v1 else Undefined)
         else if key == k2 then (if p2 then v2 else Undefined)
         else if key == k3 then (if p3 then v3 else Undefined)
         else if key == k4 then (if p4 then v4 else Undefined)
         else if key == k5 then (if p5 then v5 else Undefined)
         else Undefined
  {
    var e1, e2, e3, e4, e5 := Entry(p1, k1, v1), Entry(p2, k2, v2), Entry(p3, k3, v3), Entry(p4, k4, v4), Entry(p5, k5, v5);
    assert e1 + e2 + e3 + e4 + e5 == e1 + (e2 + (e3 + (e4 + (e5 + []))));
    LookupEntry(p5, k5, v5, [], key);
    LookupEntry(p4, k4, v4, e5 + [], key);
    LookupEntry(p3, k3, v3, e4 + (e5 + []), key);
    LookupEntry(p2, k2, v2, e3 + (e4 + (e5 + [])), key);
    LookupEntry(p1, k1, v1, e2 + (e3 + (e4 + (e5 + []))), key);
  }

  /**
   * A group is present exactly when one of its bounds is not `undefined` (so `0` and `null` count),
   * and it holds those bounds as given, unvalidated and in no other order, and nothing else.
   */
  lemma GroupReadBack(min: JsValue, max: JsValue)
    ensures var g := GroupValue(min, max);
      && (g != Undefined <==> min != Undefined || max != Undefined)
      && (g != Undefined ==> Field(g, "min") == min && Field(g, "max") == max)
      && (g != Undefined ==> forall i :: 0 <= i < |g.entries| ==> g.entries[i].0 == "min" || g.entries[i].0 == "max")
  {
    Distinct();
    LookupEntry(Given(min), "min", min, Entry(Given(max), "max", max), "min");
    LookupEntry(Given(min), "min", min, Entry(Given(max), "max", max), "max");
  }

  /** The eight statements never list a property twice. */
  lemma FilterKeysUnique(r: SearchRequest)
    ensures UniqueKeys(FilterStateSteps(r))
  {
    var s1 := SetBound([], "price", "min", r.minPrice);
    SetBoundUnique([], "price", "min", r.minPrice);
    var s2 := SetBound(s1, "price", "max", r.maxPrice);
    SetBoundUnique(s1, "price", "max", r.maxPrice);
    var s3 := SetBound(s2, "beds", "min", r.minBeds);
    SetBoundUnique(s2, "beds", "min", r.minBeds);
    var s4 := SetBound(s3, "beds", "max", r.maxBeds);
    SetBoundUnique(s3, "beds", "max", r.maxBeds);
    var s5 := SetBound(s4, "baths", "min", r.minBaths);
    SetBoundUnique(s4, "baths", "min", r.minBaths);
    var s6 := SetBound(s5, "baths", "max", r.maxBaths);
    SetBoundUnique(s5, "baths", "max", r.maxBaths);
    var s7 := SetIfGiven(s6, "homeType", r.propertyType, Arr([r.propertyType]));
    if Given(r.propertyType) {
      AssignUnique(s6, "homeType", Arr([r.propertyType]));
    }
    if Given(r.sortBy) {
      AssignUnique(s7, "sortSelection", Obj([("value", r.sortBy)]));
    }
  }

  lemma SetBoundUnique(fs: seq<(string, JsValue)>, group: string, bound: string, v: JsValue)
    requires UniqueKeys(fs)
    ensures UniqueKeys(SetBound(fs, group, bound, v))
  {
    if v != Undefined {
      AssignUnique(fs, group, Obj(Assign(SpreadOrEmpty(Lookup(fs, group)), bound, v)));
    }
  }

  // ---------------------------------------------------------------------------------------------
  // Worked examples

  /** A group with both bounds given holds `min` then `max`. */
  lemma BothBounds(min: JsValue, max: JsValue)
    requires Given(min) && Given(max)
    ensures GroupValue(min, max) == Obj([("min", min), ("max", max)])
  {
  }

  /** Every bound given: each group holds both bounds. */
  lemma AllBoundsExample(r: SearchRequest)
    requires Given(r.minPrice) && Given(r.maxPrice) && Given(r.minBeds) && Given(r.maxBeds)
    requires Given(r.minBaths) && Given(r.maxBaths)
    ensures Lookup(FilterStateSteps(r), "price") == Obj([("min", r.minPrice), ("max", r.maxPrice)])
    ensures Lookup(FilterStateSteps(r), "beds") == Obj([("min", r.minBeds), ("max", r.maxBeds)])
    ensures Lookup(FilterStateSteps(r), "baths") == Obj([("min", r.minBaths), ("max", r.maxBaths)])
  {
    FilterLookup(r, "price");
    BothBounds(r.minPrice, r.maxPrice);
    FilterLookup(r, "beds");
    BothBounds(r.minBeds, r.maxBeds);
    FilterLookup(r, "baths");
    BothBounds(r.minBaths, r.maxBaths);
  }

  /** A lower bound above the upper bound is passed on as it is. */
  lemma MinAboveMaxExample(r: SearchRequest)
    requires r.minPrice == Num(600000.0) && r.maxPrice == Num(500000.0)
    requires r.minBeds == Num(5.0) && r.maxBeds == Num(2.0)
    ensures Field(Lookup(FilterStateSteps(r), "price"), "min") == Num(600000.0)
    ensures Field(Lookup(FilterStateSteps(r), "price"), "max") == Num(500000.0)
    ensures Field(Lookup(FilterStateSteps(r), "beds"), "min") == Num(5.0)
    ensures Field(Lookup(FilterStateSteps(r), "beds"), "max") == Num(2.0)
  {
    FilterLookup(r, "price");
    FilterLookup(r, "beds");
    GroupReadBack(r.minPrice, r.maxPrice);
    GroupReadBack(r.minBeds, r.maxBeds);
  }

  /** Only a lower bed bound: no price or bath group, and a beds group without `max`. */
  lemma OmitsMissingExample(r: SearchRequest)
    requires r.minPrice == Undefined && r.maxPrice == Undefined && r.minBaths == Undefined && r.maxBaths == Undefined
    requires r.minBeds == Num(2.0) && r.maxBeds == Undefined
    ensures Lookup(FilterStateSteps(r), "price") == Undefined
    ensures Lookup(FilterStateSteps(r), "baths") == Undefined
    ensures Field(Lookup(FilterStateSteps(r), "beds"), "min") == Num(2.0)
    ensures Field(Lookup(FilterStateSteps(r), "beds"), "max") == Undefined
  {
    FilterLookup(r, "price");
    FilterLookup(r, "baths");
    FilterLookup(r, "beds");
    GroupReadBack(r.minBeds, r.maxBeds);
  }
}
