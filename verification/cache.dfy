/**
 * The tools' response cache (src/cache.ts): `generateCacheKey`, which turns request parameters into
 * a key independent of the order they were written in, and `Cache`, a map whose entries expire.
 *
 * The cache delegates to node-cache; its observable contract is modelled: an entry set with a TTL
 * of `t` seconds at time `now` (milliseconds) expires at `now + 1000·t` and is gone once the clock is
 * past that instant; a TTL of 0 never expires; an omitted TTL means the standard TTL.
 */
module Caching {
  import opened Wrappers
  import opened Text
  import opened Js

  // ---------------------------------------------------------------------------------
  // generateCacheKey

  /**
   * `a < b` as `Array.prototype.sort` compares strings: UTF-16 code unit by code unit, a proper
   * prefix first. A character above U+FFFF is compared by its high surrogate (0xD800–0xDBFF), so it
   * sorts before the characters U+E000–U+FFFF although its code point is larger.
   */
  predicate Less(a: string, b: string) {
    UnitsLess(Utf16(a), Utf16(b))
  }

  /** The lexicographic order on code-unit sequences. */
  predicate UnitsLess(a: seq<int>, b: seq<int>)
    decreases |a|
  {
    |b| > 0 && (|a| == 0 || a[0] < b[0] || (a[0] == b[0] && UnitsLess(a[1..], b[1..])))
  }

  lemma {:induction false} UnitsIrreflexive(a: seq<int>)
    ensures !UnitsLess(a, a)
    decreases |a|
  {
    if |a| > 0 {
      UnitsIrreflexive(a[1..]);
    }
  }

  lemma {:induction false} UnitsTransitive(a: seq<int>, b: seq<int>, c: seq<int>)
    requires UnitsLess(a, b) && UnitsLess(b, c)
    ensures UnitsLess(a, c)
    decreases |a|
  {
    if |a| > 0 && a[0] == b[0] && b[0] == c[0] {
      UnitsTransitive(a[1..], b[1..], c[1..]);
    }
  }

  lemma {:induction false} UnitsTotal(a: seq<int>, b: seq<int>)
    requires a != b
    ensures UnitsLess(a, b) || UnitsLess(b, a)
    decreases |a|
  {
    if |a| > 0 && |b| > 0 && a[0] == b[0] {
      assert a == [a[0]] + a[1..] && b == [b[0]] + b[1..];
      UnitsTotal(a[1..], b[1..]);
    }
  }

  lemma LessIrreflexive(a: string)
    ensures !Less(a, a)
  {
    UnitsIrreflexive(Utf16(a));
  }

  lemma LessTransitive(a: string, b: string, c: string)
    requires Less(a, b) && Less(b, c)
    ensures Less(a, c)
  {
    UnitsTransitive(Utf16(a), Utf16(b), Utf16(c));
  }

  /** Distinct strings are ordered one way or the other, because their code units differ. */
  lemma LessTotal(a: string, b: string)
    requires a != b
    ensures Less(a, b) || Less(b, a)
  {
    if Utf16(a) == Utf16(b) {
      Utf16Injective(a, b);
    }
    UnitsTotal(Utf16(a), Utf16(b));
  }

  lemma LessAsymmetric(a: string, b: string)
    requires Less(a, b)
    ensures !Less(b, a)
  {
    if Less(b, a) {
      LessTransitive(a, b, a);
      LessIrreflexive(a);
    }
  }

  /** Code-unit order differs from code-point order: U+1F600 sorts before U+FF01. */
  lemma SurrogateSortsFirst()
    ensures Less("\U{1F600}", "\U{FF01}")
  {
    assert Utf16("\U{1F600}") == [0xD83D, 0xDE00];
    assert Utf16("\U{FF01}") == [0xFF01];
  }

  /** Strictly increasing, hence without repeats. */
  predicate Sorted(s: seq<string>) {
    forall i, j :: 0 <= i < j < |s| ==> Less(s[i], s[j])
  }

  predicate Distinct<T(==)>(s: seq<T>) {
    forall i, j :: 0 <= i < j < |s| ==> s[i] != s[j]
  }

  /** Inserting a new key into a sorted list of keys keeps it sorted and adds exactly that key. */
  function Insert(x: string, s: seq<string>): (r: seq<string>)
    requires Sorted(s) && x !in s
    ensures Sorted(r)
    ensures |r| == |s| + 1
    ensures forall y :: y in r <==> y == x || y in s
  {
    if |s| == 0 then [x]
    else if Less(x, s[0]) then
      assert forall j :: 0 < j < |s| ==> Less(x, s[j]) by {
        forall j | 0 < j < |s| {
          LessTransitive(x, s[0], s[j]);
        }
      }
      [x] + s
    else
      assert Less(s[0], x) by {
        LessTotal(x, s[0]);
      }
      var rest := Insert(x, s[1..]);
      assert forall y :: y in rest ==> Less(s[0], y) by {
        forall y | y in rest
          ensures Less(s[0], y)
        {
          if y != x {
            var j :| 0 <= j < |s[1..]| && s[1..][j] == y;
            assert s[j + 1] == y;
          }
        }
      }
      [s[0]] + rest
  }

  /** `keys.sort()` for keys without repeats. */
  function SortKeys(keys: seq<string>): (r: seq<string>)
    requires Distinct(keys)
    ensures Sorted(r)
    ensures forall y :: y in r <==> y in keys
    decreases |keys|
  {
    if |keys| == 0 then []
    else
      var init := keys[..|keys| - 1];
      var sorted := SortKeys(init);
      assert keys[|keys| - 1] !in init;
      assert keys == init + [keys[|keys| - 1]];
      Insert(keys[|keys| - 1], sorted)
  }

  /** There is only one sorted arrangement of a set of keys. */
  lemma {:induction false} SortedUnique(a: seq<string>, b: seq<string>)
    requires Sorted(a) && Sorted(b)
    requires forall y :: y in a <==> y in b
    ensures a == b
    decreases |a|
  {
    if |a| > 0 {
      assert a[0] in a;
    }
    if |b| > 0 {
      assert b[0] in b;
    }
    if |a| > 0 && |b| > 0 {
      assert a[0] == b[0] by {
        assert a[0] in a && b[0] in b;
        var i :| 0 <= i < |b| && b[i] == a[0];
        var j :| 0 <= j < |a| && a[j] == b[0];
        if i != 0 && j != 0 {
          assert Less(b[0], a[0]) && Less(a[0], b[0]);
          LessAsymmetric(a[0], b[0]);
        }
      }
      forall y
        ensures y in a[1..] <==> y in b[1..]
      {
        if y in a[1..] {
          var i :| 0 <= i < |a[1..]| && a[1..][i] == y;
          assert Less(a[0], a[i + 1]);
          LessIrreflexive(y);
          assert y in a && y in b;
          var k :| 0 <= k < |b| && b[k] == y;
          assert b[1..][k - 1] == y;
        }
        if y in b[1..] {
          var i :| 0 <= i < |b[1..]| && b[1..][i] == y;
          assert Less(b[0], b[i + 1]);
          LessIrreflexive(y);
          assert y in b && y in a;
          var k :| 0 <= k < |a| && a[k] == y;
          assert a[1..][k - 1] == y;
        }
      }
      SortedUnique(a[1..], b[1..]);
    }
  }

  /** A plain object: its own properties in insertion order, no name twice. */
  type Entries = seq<(string, JsValue)>

  predicate IsObject(obj: Entries) {
    forall i, j :: 0 <= i < j < |obj| ==> obj[i].0 != obj[j].0
  }

  /** `Object.keys(obj)`. */
  function Keys(obj: Entries): (ks: seq<string>)
    ensures |ks| == |obj| && forall i :: 0 <= i < |obj| ==> ks[i] == obj[i].0
  {
    seq(|obj|, i requires 0 <= i < |obj| => obj[i].0)
  }

  /** `obj[key]`. */
  function Get(obj: Entries, key: string): JsValue {
    if |obj| == 0 then Undefined
    else if obj[0].0 == key then obj[0].1
    else Get(obj[1..], key)
  }

  lemma {:induction false} GetOfMember(obj: Entries, key: string, value: JsValue)
    requires IsObject(obj) && (key, value) in obj
    ensures Get(obj, key) == value
  {
    if obj[0] != (key, value) {
      var i :| 0 <= i < |obj| && obj[i] == (key, value);
      assert obj[1..][i - 1] == (key, value);
      GetOfMember(obj[1..], key, value);
    }
  }

  /** `${k}:${JSON.stringify(obj[k])}` for each key in turn; `stringify` renders `JSON.stringify`'s result in a template. */
  function Pairs(keys: seq<string>, obj: Entries, stringify: JsValue -> string): (ps: seq<string>)
    ensures |ps| == |keys|
    ensures forall i :: 0 <= i < |keys| ==> ps[i] == keys[i] + ":" + stringify(Get(obj, keys[i]))
  {
    seq(|keys|, i requires 0 <= i < |keys| => keys[i] + ":" + stringify(Get(obj, keys[i])))
  }

  /** `generateCacheKey(obj)`: the `name:value` pairs, names in sorted order, joined by `|`. */
  function GenerateCacheKey(obj: Entries, stringify: JsValue -> string): (key: string)
    requires IsObject(obj)
    ensures exists keys: seq<string> ::
      && Sorted(keys) && (forall y :: y in keys <==> y in Keys(obj))
      && key == Join(Pairs(keys, obj, stringify), "|")
  {
    assert Distinct(Keys(obj));
    var keys := SortKeys(Keys(obj));
    Join(Pairs(keys, obj, stringify), "|")
  }

  /** The key does not depend on the order in which the properties were written. */
  lemma KeyOrderIndependent(a: Entries, b: Entries, stringify: JsValue -> string)
    requires IsObject(a) && IsObject(b)
    requires forall p :: p in a <==> p in b
    ensures GenerateCacheKey(a, stringify) == GenerateCacheKey(b, stringify)
  {
    assert Distinct(Keys(a)) && Distinct(Keys(b));
    var ka := SortKeys(Keys(a));
    var kb := SortKeys(Keys(b));
    forall y
      ensures y in Keys(a) <==> y in Keys(b)
    {
      if y in Keys(a) {
        var i :| 0 <= i < |a| && Keys(a)[i] == y;
        assert a[i] in b;
        var j :| 0 <= j < |b| && b[j] == a[i];
        assert Keys(b)[j] == y;
      }
      if y in Keys(b) {
        var i :| 0 <= i < |b| && Keys(b)[i] == y;
        assert b[i] in a;
        var j :| 0 <= j < |a| && a[j] == b[i];
        assert Keys(a)[j] == y;
      }
    }
    SortedUnique(ka, kb);
    forall i | 0 <= i < |ka|
      ensures Get(a, ka[i]) == Get(b, ka[i])
    {
      assert ka[i] in ka;
      var j :| 0 <= j < |a| && Keys(a)[j] == ka[i];
      GetOfMember(a, a[j].0, a[j].1);
      GetOfMember(b, a[j].0, a[j].1);
    }
    assert Pairs(ka, a, stringify) == Pairs(kb, b, stringify);
  }

  /** An empty object gives the empty key. */
  lemma EmptyKey(stringify: JsValue -> string)
    ensures GenerateCacheKey([], stringify) == ""
  {
  }

  /** Two one-property objects with the same name tell their values apart by their serialisations. */
  lemma SingleKeyDistinguishes(name: string, v1: JsValue, v2: JsValue, stringify: JsValue -> string)
    requires stringify(v1) != stringify(v2)
    ensures GenerateCacheKey([(name, v1)], stringify) != GenerateCacheKey([(name, v2)], stringify)
  {
    var k1 := GenerateCacheKey([(name, v1)], stringify);
    var k2 := GenerateCacheKey([(name, v2)], stringify);
    assert SortKeys(Keys([(name, v1)])) == [name];
    assert SortKeys(Keys([(name, v2)])) == [name];
    assert k1 == name + ":" + stringify(v1);
    assert k2 == name + ":" + stringify(v2);
    assert k1[|name| + 1..] == stringify(v1);
    assert k2[|name| + 1..] == stringify(v2);
  }

  // ---------------------------------------------------------------------------------
  // Cache

  const DefaultStdTtl: int := 600
  const DefaultCheckPeriod: int := 120

  /** `CacheOptions`; `None` is an absent field. */
  datatype CacheOptions = CacheOptions(stdTTL: Option<int>, checkperiod: Option<int>)

  /** `field || fallback` for a numeric option: absent and 0 both give the fallback. */
  function FieldOr(field: Option<int>, fallback: int): (r: int)
    ensures (field.None? || field.value == 0) ==> r == fallback
    ensures (field.Some? && field.value != 0) ==> r == field.value
  {
    if field.Some? && field.value != 0 then field.value else fallback
  }

  /** `options?.stdTTL || 600`. */
  function StdTtlOf(options: Option<CacheOptions>): int {
    FieldOr(if options.Some? then options.value.stdTTL else None, DefaultStdTtl)
  }

  /** `options?.checkperiod || 120`. */
  function CheckPeriodOf(options: Option<CacheOptions>): int {
    FieldOr(if options.Some? then options.value.checkperiod else None, DefaultCheckPeriod)
  }

  /** A stored value and the instant (ms) it expires at; 0 means never. */
  datatype Entry = Entry(value: JsValue, expiresAt: int)

  /** The expiry instant of a value set at `now` with a TTL in seconds (`None`: the standard TTL). */
  function ExpiresAt(now: int, ttl: Option<int>, stdTtl: int): int {
    match ttl
    case Some(t) => if t == 0 then 0 else now + t * 1000
    case None => if stdTtl == 0 then 0 else now + stdTtl * 1000
  }

  predicate Expired(e: Entry, now: int) {
    e.expiresAt != 0 && e.expiresAt < now
  }

  /** What `get(key)` returns at time `now`: the value, or `undefined` when absent or expired. */
  function Visible(store: map<string, Entry>, key: string, now: int): JsValue {
    if key in store && !Expired(store[key], now) then store[key].value else Undefined
  }

  class Cache {
    var store: map<string, Entry>
    const stdTtl: int
    const checkPeriod: int

    constructor(options: Option<CacheOptions>)
      ensures store == map[]
      ensures stdTtl == StdTtlOf(options)
      ensures checkPeriod == CheckPeriodOf(options)
    {
      store := map[];
      stdTtl := StdTtlOf(options);
      checkPeriod := CheckPeriodOf(options);
    }

    /** `get(key)` at time `now`. */
    method Get(key: string, now: int) returns (value: JsValue)
      ensures value == Visible(store, key, now)
    {
      if key in store && !Expired(store[key], now) {
        value := store[key].value;
      } else {
        value := Undefined;
      }
    }

    /** `set(key, value, ttl)` at time `now`. */
    method Set(key: string, value: JsValue, ttl: Option<int>, now: int)
      modifies this
      ensures store == old(store)[key := Entry(value, ExpiresAt(now, ttl, stdTtl))]
    {
      store := store[key := Entry(value, ExpiresAt(now, ttl, stdTtl))];
    }

    /** `del(key)`. */
    method Del(key: string)
      modifies this
      ensures store == old(store) - {key}
    {
      store := store - {key};
    }

    /** `clear()`. */
    method Clear()
      modifies this
      ensures store == map[]
    {
      store := map[];
    }
  }

  // ---------------------------------------------------------------------------------
  // What the cache guarantees

  /** The constructor never leaves a standard TTL of 0: values set without a TTL always expire. */
  lemma StdTtlNeverZero(options: Option<CacheOptions>)
    ensures StdTtlOf(options) != 0
    ensures options.None? ==> StdTtlOf(options) == 600
    ensures options.None? ==> CheckPeriodOf(options) == 120
  {
  }

  /** A value just set is read back, until its TTL runs out. */
  lemma SetThenGet(store: map<string, Entry>, key: string, value: JsValue, ttl: Option<int>, stdTtl: int,
                   now: int, later: int)
    requires now <= later
    requires var t := ttl.GetOr(stdTtl); t == 0 || later <= now + t * 1000
    ensures Visible(store[key := Entry(value, ExpiresAt(now, ttl, stdTtl))], key, later) == value
  {
  }

  /** Once the TTL has run out, the key reads as absent. */
  lemma ExpiresAfterTtl(store: map<string, Entry>, key: string, value: JsValue, ttl: Option<int>, stdTtl: int,
                        now: int, later: int)
    requires var t := ttl.GetOr(stdTtl); t != 0 && later > now + t * 1000 && now + t * 1000 != 0
    ensures Visible(store[key := Entry(value, ExpiresAt(now, ttl, stdTtl))], key, later) == Undefined
  {
  }

  /** Setting one key leaves every other key as it reads. */
  lemma SetLeavesOthers(store: map<string, Entry>, key: string, entry: Entry, other: string, now: int)
    requires other != key
    ensures Visible(store[key := entry], other, now) == Visible(store, other, now)
  {
  }

  /** A key never set reads as absent. */
  lemma MissingKey(store: map<string, Entry>, key: string, now: int)
    requires key !in store
    ensures Visible(store, key, now) == Undefined
  {
  }

  /** `del(k)` removes `k` and only `k`. */
  lemma DelRemovesOnly(store: map<string, Entry>, key: string, other: string, now: int)
    ensures Visible(store - {key}, key, now) == Undefined
    ensures other != key ==> Visible(store - {key}, other, now) == Visible(store, other, now)
  {
  }

  /** After `clear()` every key reads as absent. */
  lemma ClearRemovesAll(key: string, now: int)
    ensures Visible(map[], key, now) == Undefined
  {
  }
}
