/** lodash `uniq`, `difference` and `intersection`: the hash cache for large arrays and the linear scans for small
    ones. */
module SetOperations {
  import opened Options
  import Numerals

  /** JavaScript values other than symbols; an object, an array or a function is its identity. */
  datatype Value = Undefined | Null | Bool(b: bool) | NaN | Num(n: Numerals.Number) | Str(s: string) | Obj(id: nat)

  // ----- the two equalities

  /** `===` (section 7.2.13 of ECMA-262 6th edition) */
  predicate StrictEqual(a: Value, b: Value) {
    !a.NaN? && SameValueZero(a, b)
  }

  /** Section 7.2.10 of ECMA-262 6th edition */
  predicate SameValueZero(a: Value, b: Value) {
    a == b || (a.Num? && b.Num? && a.n.Zero? && b.n.Zero?)
  }

  predicate Contains(s: seq<Value>, v: Value) {
    exists i :: 0 <= i < |s| && SameValueZero(s[i], v)
  }

  // ----- SetCache

  predicate InSet(v: Value) {
    v.Str? || v.Obj?
  }

  /** The property name a value becomes as a key of `hash`. */
  function HashKey(v: Value): string
    requires !InSet(v)
  {
    match v
    case Undefined => "undefined"
    case Null => "null"
    case Bool(b) => if b then "true" else "false"
    case NaN => "NaN"
    case Num(n) => Numerals.Text(n)
  }

  /** Values share a hash key exactly when SameValueZero holds, so the cache confuses nothing. */
  lemma HashKeyInjective(a: Value, b: Value)
    requires !InSet(a) && !InSet(b)
    ensures HashKey(a) == HashKey(b) <==> SameValueZero(a, b)
  {
    if a.Num? && b.Num? {
      Numerals.TextInjective(a.n, b.n);
    } else if a.Num? {
      NumberKey(a.n);
    } else if b.Num? {
      NumberKey(b.n);
    } else {
      assert "undefined"[0] != "null"[0] && "true"[0] != "false"[0];
    }
  }

  /** The text of a number starts with a digit, a minus sign or a capital I. */
  lemma NumberKey(n: Numerals.Number)
    ensures var s := Numerals.Text(n); s != "" && (s[0] <= '9' || s[0] == 'I')
  {
  }

  class SetCache {
    var hash: set<string>
    var members: set<Value>

    /** `cacheIndexOf`, as the test `== 0` */
    predicate Has(value: Value)
      reads this
    {
      if InSet(value) then value in members else HashKey(value) in hash
    }

    /** An empty cache, `createCache()` */
    constructor ()
      ensures forall v :: !Has(v)
    {
      hash, members := {}, {};
    }

    /** `createCache(values)` */
    constructor Filled(values: seq<Value>)
      ensures forall v :: Has(v) <==> Contains(values, v)
    {
      hash, members := {}, {};
      new;
      var length := |values|;
      while length > 0
        invariant 0 <= length <= |values|
        invariant forall v :: Has(v) <==> Contains(values[length..], v)
      {
        length := length - 1;
        Push(values[length]);
        ContainsFirst(values[length..]);
        assert values[length..][1..] == values[length + 1..];
      }
      assert values[0..] == values;
    }

    /** `cachePush` */
    method Push(value: Value)
      modifies this
      ensures forall v :: Has(v) <==> old(Has(v)) || SameValueZero(value, v)
    {
      forall v | !InSet(v) && !InSet(value) ensures HashKey(v) == HashKey(value) <==> SameValueZero(value, v) {
        HashKeyInjective(v, value);
      }
      if InSet(value) {
        members := members + {value};
      } else {
        hash := hash + {HashKey(value)};
      }
    }
  }

  lemma ContainsFirst(s: seq<Value>)
    requires s != []
    ensures forall v :: Contains(s, v) <==> SameValueZero(s[0], v) || Contains(s[1..], v)
  {
  }

  lemma ContainsLast(s: seq<Value>, v: Value)
    ensures forall w :: Contains(s + [v], w) <==> Contains(s, w) || SameValueZero(v, w)
  {
    forall w ensures Contains(s + [v], w) <==> Contains(s, w) || SameValueZero(v, w) {
      if Contains(s, w) {
        var i :| 0 <= i < |s| && SameValueZero(s[i], w);
        assert SameValueZero((s + [v])[i], w);
      }
      assert (s + [v])[|s|] == v;
    }
  }

  // ----- baseIndexOf

  /** `indexOfNaN` */
  method IndexOfNaN(values: seq<Value>, from: nat) returns (r: int)
    ensures r == -1 ==> forall i :: from <= i < |values| ==> !values[i].NaN?
    ensures r != -1 ==> from <= r < |values| && values[r].NaN? && forall i :: from <= i < r ==> !values[i].NaN?
  {
    var index := from;
    while index < |values|
      invariant from <= index
      invariant forall i :: from <= i < index && i < |values| ==> !values[i].NaN?
    {
      if values[index].NaN? { return index; }
      index := index + 1;
    }
    r := -1;
  }

  /** `baseIndexOf`: the first position whose value is the same under SameValueZero */
  method BaseIndexOf(values: seq<Value>, value: Value, from: nat) returns (r: int)
    ensures r == -1 ==> forall i :: from <= i < |values| ==> !SameValueZero(values[i], value)
    ensures r != -1 ==> from <= r < |values| && SameValueZero(values[r], value)
    ensures r != -1 ==> forall i :: from <= i < r ==> !SameValueZero(values[i], value)
  {
    if value.NaN? {
      r := IndexOfNaN(values, from);
      return;
    }
    var index := from;
    while index < |values|
      invariant from <= index
      invariant forall i :: from <= i < index && i < |values| ==> !SameValueZero(values[i], value)
    {
      if StrictEqual(values[index], value) { return index; }
      index := index + 1;
    }
    r := -1;
  }

  /** The backward scan that stands in for `baseIndexOf` on values that are not NaN. */
  method ScanBack(values: seq<Value>, value: Value) returns (found: bool)
    ensures found <==> exists i :: 0 <= i < |values| && StrictEqual(values[i], value)
  {
    var i := |values|;
    while i > 0
      invariant 0 <= i <= |values|
      invariant forall j :: i <= j < |values| ==> !StrictEqual(values[j], value)
    {
      i := i - 1;
      if StrictEqual(values[i], value) { return true; }
    }
    return false;
  }

  // ----- the meaning: which positions are kept

  /** The elements among the first `n` at the positions that `keep` accepts. */
  ghost function Picked(s: seq<Value>, keep: int -> bool, n: nat): seq<Value>
    requires n <= |s|
  {
    if n == 0 then [] else Picked(s, keep, n - 1) + if keep(n - 1) then [s[n - 1]] else []
  }

  /** No earlier key is the same under SameValueZero. */
  predicate Fresh(keys: seq<Value>, i: int) {
    0 <= i < |keys| && !Contains(keys[..i], keys[i])
  }

  ghost function FirstOf(keys: seq<Value>): int -> bool {
    i => Fresh(keys, i)
  }

  ghost function Outside(s: seq<Value>, values: seq<Value>): int -> bool {
    i => 0 <= i < |s| && !Contains(values, s[i])
  }

  ghost function Common(s: seq<Value>, others: seq<seq<Value>>): int -> bool {
    i => Fresh(s, i) && InAll(others, s[i])
  }

  /** The first of the elements that share a key. */
  ghost function UniqBy(s: seq<Value>, keys: seq<Value>): seq<Value> {
    Picked(s, FirstOf(keys), |s|)
  }

  ghost function Uniq(s: seq<Value>): seq<Value> {
    UniqBy(s, s)
  }

  ghost function Difference(s: seq<Value>, values: seq<Value>): seq<Value> {
    Picked(s, Outside(s, values), |s|)
  }

  ghost predicate InAll(others: seq<seq<Value>>, v: Value) {
    forall k :: 0 <= k < |others| ==> Contains(others[k], v)
  }

  ghost function Intersection(s: seq<Value>, others: seq<seq<Value>>): seq<Value> {
    Picked(s, Common(s, others), |s|)
  }

  /** The position decides: what is picked so far contains a value exactly when a kept earlier position holds it. */
  lemma {:induction false} PickedContains(s: seq<Value>, keep: int -> bool, n: nat)
    requires n <= |s|
    ensures forall v :: Contains(Picked(s, keep, n), v) <==> exists i :: 0 <= i < n && keep(i) && SameValueZero(s[i], v)
  {
    if n > 0 {
      PickedContains(s, keep, n - 1);
      if keep(n - 1) { ContainsLast(Picked(s, keep, n - 1), s[n - 1]); }
      assert Picked(s, keep, n - 1) + [] == Picked(s, keep, n - 1);
    }
  }

  lemma {:induction false} PickedSame(s: seq<Value>, a: int -> bool, b: int -> bool, n: nat)
    requires n <= |s| && forall i :: 0 <= i < n ==> a(i) == b(i)
    ensures Picked(s, a, n) == Picked(s, b, n)
  {
    if n > 0 { PickedSame(s, a, b, n - 1); }
  }

  /** A laxer test picks as much, and strictly more if it accepts a position that the other refuses. */
  lemma {:induction false} PickedMore(s: seq<Value>, a: int -> bool, b: int -> bool, n: nat)
    requires n <= |s| && forall i :: 0 <= i < n && a(i) ==> b(i)
    ensures |Picked(s, a, n)| <= |Picked(s, b, n)|
    ensures (exists i :: 0 <= i < n && b(i) && !a(i)) ==> |Picked(s, a, n)| < |Picked(s, b, n)|
  {
    if n > 0 { PickedMore(s, a, b, n - 1); }
  }

  // ----- the operations

  const LARGE_ARRAY_SIZE := 200

  /** `baseDifference` */
  method BaseDifference(items: seq<Value>, values: seq<Value>) returns (result: seq<Value>)
    ensures result == Difference(items, values)
  {
    result := [];
    var cache: SetCache? := null;
    if |values| >= LARGE_ARRAY_SIZE {
      cache := new SetCache.Filled(values);
    }
    for index := 0 to |items|
      invariant result == Picked(items, Outside(items, values), index)
      invariant cache != null ==> forall v :: cache.Has(v) <==> Contains(values, v)
    {
      var value := items[index];
      var found;
      if cache != null {
        found := cache.Has(value);
      } else if !value.NaN? {
        found := ScanBack(values, value);
      } else {
        var at := BaseIndexOf(values, value, 0);
        found := at >= 0;
      }
      assert found <==> Contains(values, value);
      if !found { result := result + [value]; }
    }
  }

  /** The keys that `uniq` compares: the elements themselves, or what the iteratee makes of them. */
  function Keys(s: seq<Value>, iteratee: Option<(Value, int) -> Value>): (keys: seq<Value>)
    ensures |keys| == |s|
  {
    if iteratee.None? then s else seq(|s|, i requires 0 <= i < |s| => iteratee.value(s[i], i))
  }

  /** What the linear scan keeps: an element other than NaN is compared by its key under `===`. */
  predicate LinearFresh(s: seq<Value>, keys: seq<Value>, i: int)
    requires |keys| == |s|
  {
    0 <= i < |s| && if s[i].NaN? then Fresh(keys, i) else !exists j :: 0 <= j < i && StrictEqual(keys[j], keys[i])
  }

  ghost function LinearFirst(s: seq<Value>, keys: seq<Value>): int -> bool
    requires |keys| == |s|
  {
    i => LinearFresh(s, keys, i)
  }

  ghost function LinearUniq(s: seq<Value>, keys: seq<Value>, n: nat): seq<Value>
    requires |keys| == |s| && n <= |s|
  {
    Picked(s, LinearFirst(s, keys), n)
  }

  /** One key more has been dealt with; a key already seen adds nothing. */
  lemma SeenStep(keys: seq<Value>, i: nat)
    requires i < |keys|
    ensures forall v :: Contains(keys[..i + 1], v) <==> Contains(keys[..i], v) || SameValueZero(keys[i], v)
  {
  }

  /** `baseUniq` from `LARGE_ARRAY_SIZE` on */
  method UniqCached(items: seq<Value>, iteratee: Option<(Value, int) -> Value>) returns (result: seq<Value>)
    ensures result == UniqBy(items, Keys(items, iteratee))
  {
    ghost var keys := Keys(items, iteratee);
    var seen := new SetCache();
    result := [];
    for index := 0 to |items|
      invariant result == Picked(items, FirstOf(keys), index)
      invariant forall v :: seen.Has(v) <==> Contains(keys[..index], v)
    {
      var value := items[index];
      var computed := if iteratee.Some? then iteratee.value(value, index) else value;
      SeenStep(keys, index);
      if !seen.Has(computed) {
        seen.Push(computed);
        result := result + [value];
      }
    }
  }

  /** `baseUniq` below that size; without an iteratee the result itself is the list of seen keys */
  method UniqLinear(items: seq<Value>, iteratee: Option<(Value, int) -> Value>) returns (result: seq<Value>)
    ensures result == LinearUniq(items, Keys(items, iteratee), |items|)
  {
    ghost var keys := Keys(items, iteratee);
    var seen := [];
    result := [];
    for index := 0 to |items|
      invariant result == LinearUniq(items, keys, index)
      invariant iteratee.None? ==> seen == result
      invariant forall v :: Contains(seen, v) <==> Contains(keys[..index], v)
    {
      var value := items[index];
      var computed := if iteratee.Some? then iteratee.value(value, index) else value;
      SeenStep(keys, index);
      var found;
      if !value.NaN? {
        found := ScanBack(seen, computed);
        StrictMembers(seen, keys[..index], computed);
      } else {
        var at := BaseIndexOf(seen, computed, 0);
        found := at >= 0;
      }
      assert found <==> !LinearFresh(items, keys, index);
      if !found {
        ContainsLast(seen, computed);
        seen := seen + [computed];
        result := result + [value];
      }
    }
  }

  lemma StrictMembers(a: seq<Value>, b: seq<Value>, v: Value)
    requires forall w :: Contains(a, w) <==> Contains(b, w)
    ensures (exists i :: 0 <= i < |a| && StrictEqual(a[i], v)) <==> exists i :: 0 <= i < |b| && StrictEqual(b[i], v)
  {
    assert (exists i :: 0 <= i < |a| && StrictEqual(a[i], v)) <==> !v.NaN? && Contains(a, v);
    assert (exists i :: 0 <= i < |b| && StrictEqual(b[i], v)) <==> !v.NaN? && Contains(b, v);
  }

  /** `baseUniq` */
  method BaseUniq(items: seq<Value>, iteratee: Option<(Value, int) -> Value>) returns (result: seq<Value>)
    ensures iteratee.None? ==> result == Uniq(items)
    ensures |items| >= LARGE_ARRAY_SIZE || !NaNKeyRepeats(items, Keys(items, iteratee))
            <==> result == UniqBy(items, Keys(items, iteratee))
  {
    LinearUniqExact(items, Keys(items, iteratee));
    if |items| >= LARGE_ARRAY_SIZE {
      result := UniqCached(items, iteratee);
    } else {
      result := UniqLinear(items, iteratee);
    }
  }

  /** Some element other than NaN has the key NaN, and so has an earlier element. */
  predicate NaNKeyRepeats(s: seq<Value>, keys: seq<Value>)
    requires |keys| == |s|
  {
    exists i, j :: 0 <= j < i < |s| && keys[j].NaN? && keys[i].NaN? && !s[i].NaN?
  }

  /** The two paths of `uniq` agree exactly when no element other than NaN repeats the key NaN. */
  lemma LinearUniqExact(s: seq<Value>, keys: seq<Value>)
    requires |keys| == |s|
    ensures LinearUniq(s, keys, |s|) == UniqBy(s, keys) <==> !NaNKeyRepeats(s, keys)
    ensures !NaNKeyRepeats(s, s)
  {
    var first, linear := FirstOf(keys), LinearFirst(s, keys);
    forall i | 0 <= i < |s|
      ensures first(i) ==> linear(i)
      ensures linear(i) && !first(i) <==> !s[i].NaN? && keys[i].NaN? && exists j :: 0 <= j < i && keys[j].NaN?
    {
      assert Contains(keys[..i], keys[i]) <==> exists j :: 0 <= j < i && SameValueZero(keys[j], keys[i]);
    }
    if NaNKeyRepeats(s, keys) {
      PickedMore(s, first, linear, |s|);
    } else {
      PickedSame(s, first, linear, |s|);
    }
  }

  // ----- intersection

  const CACHED_LENGTH := 120

  /** An argument of `intersection`; what is not array-like counts as empty. */
  function ListOf(a: Option<seq<Value>>): seq<Value> {
    if a.Some? then a.value else []
  }

  function Lists(arrays: seq<Option<seq<Value>>>): (r: seq<seq<Value>>)
    ensures |r| == |arrays|
  {
    seq(|arrays|, i requires 0 <= i < |arrays| => ListOf(arrays[i]))
  }

  /** Whether a cache, where there is one, stands for the list. */
  ghost predicate Stands(cache: SetCache?, list: seq<Value>)
    reads cache
  {
    cache != null ==> forall v :: cache.Has(v) <==> Contains(list, v)
  }

  /** The caches of `intersection`, last array first: the one of the first array starts empty. */
  method Caches(lists: seq<seq<Value>>) returns (seen: SetCache?, caches: seq<SetCache?>)
    requires lists != []
    ensures |caches| == |lists| - 1
    ensures Stands(seen, []) && forall k :: 0 <= k < |caches| ==> Stands(caches[k], lists[k + 1])
    ensures (seen == null || fresh(seen)) && forall k :: 0 <= k < |caches| ==> caches[k] == null || caches[k] != seen
  {
    caches := [];
    var othIndex := |lists| - 1;
    while othIndex > 0
      invariant 0 <= othIndex < |lists| && |caches| == |lists| - 1 - othIndex
      invariant forall k :: 0 <= k < |caches| ==> Stands(caches[k], lists[othIndex + 1 + k])
    {
      var cache: SetCache? := null;
      if |lists[othIndex]| >= CACHED_LENGTH { cache := new SetCache.Filled(lists[othIndex]); }
      caches := [cache] + caches;
      othIndex := othIndex - 1;
    }
    seen := null;
    if |lists[0]| >= CACHED_LENGTH { seen := new SetCache(); }
  }

  method Member(cache: SetCache?, list: seq<Value>, value: Value) returns (found: bool)
    requires Stands(cache, list)
    ensures found <==> Contains(list, value)
  {
    if cache != null {
      found := cache.Has(value);
    } else {
      var at := BaseIndexOf(list, value, 0);
      found := at >= 0;
    }
  }

  /** The inner loop: whether every other array, last first, holds the value. */
  method MemberOfAll(caches: seq<SetCache?>, others: seq<seq<Value>>, value: Value) returns (all: bool)
    requires |caches| == |others| && forall k :: 0 <= k < |caches| ==> Stands(caches[k], others[k])
    ensures all <==> InAll(others, value)
  {
    var othIndex := |others|;
    while othIndex > 0
      invariant 0 <= othIndex <= |others|
      invariant forall k :: othIndex <= k < |others| ==> Contains(others[k], value)
    {
      othIndex := othIndex - 1;
      var found := Member(caches[othIndex], others[othIndex], value);
      if !found { return false; }
    }
    return true;
  }

  /** `intersection` */
  method IntersectionOf(arrays: seq<Option<seq<Value>>>) returns (result: seq<Value>)
    ensures arrays == [] ==> result == []
    ensures arrays != [] ==> result == Intersection(Lists(arrays)[0], Lists(arrays)[1..])
  {
    result := [];
    if arrays == [] { return; }
    var lists := Lists(arrays);
    var first, others := lists[0], lists[1..];
    var seen, caches := Caches(lists);
    for index := 0 to |first|
      invariant result == Picked(first, Common(first, others), index)
      invariant Stands(seen, result)
      invariant forall k :: 0 <= k < |caches| ==> Stands(caches[k], others[k])
    {
      var value := first[index];
      var found := Member(seen, result, value);
      IntersectionSeen(first, others, index);
      if !found {
        var all := MemberOfAll(caches, others, value);
        if all {
          ContainsLast(result, value);
          if seen != null { seen.Push(value); }
          result := result + [value];
        }
      }
    }
  }

  /** Among values that all lists hold, the ones in the result so far are the ones met so far. */
  lemma IntersectionSeen(s: seq<Value>, others: seq<seq<Value>>, i: nat)
    requires i < |s|
    ensures var r := Picked(s, Common(s, others), i);
            InAll(others, s[i]) ==> (Contains(r, s[i]) <==> !Fresh(s, i))
  {
    PickedContains(s, Common(s, others), i);
    if InAll(others, s[i]) && !Fresh(s, i) {
      var j := FirstSame(s, i);
      InAllSame(others, s[i], s[j]);
      assert Common(s, others)(j);
    }
    if Contains(Picked(s, Common(s, others), i), s[i]) {
      var j :| 0 <= j < i && Common(s, others)(j) && SameValueZero(s[j], s[i]);
      assert SameValueZero(s[..i][j], s[i]);
    }
  }

  /** The first position that holds the same value. */
  lemma FirstSame(s: seq<Value>, i: nat) returns (j: nat)
    requires i < |s| && !Fresh(s, i)
    ensures j < i && Fresh(s, j) && SameValueZero(s[j], s[i])
  {
    j :| 0 <= j < |s[..i]| && SameValueZero(s[..i][j], s[i]);
    if !Fresh(s, j) {
      var k := FirstSame(s, j);
      j := k;
    }
  }

  lemma InAllSame(others: seq<seq<Value>>, v: Value, w: Value)
    requires InAll(others, v) && SameValueZero(v, w)
    ensures InAll(others, w)
  {
  }

  // ----- laws

  predicate Distinct(s: seq<Value>) {
    forall i, j :: 0 <= i < j < |s| ==> !SameValueZero(s[i], s[j])
  }

  /** `uniq` keeps every value, once. */
  lemma UniqMeaning(s: seq<Value>)
    ensures forall v :: Contains(Uniq(s), v) <==> Contains(s, v)
    ensures Distinct(Uniq(s))
  {
    PickedContains(s, FirstOf(s), |s|);
    forall v ensures Contains(Uniq(s), v) <==> Contains(s, v) {
      if Contains(s, v) {
        var i :| 0 <= i < |s| && SameValueZero(s[i], v);
        var j := i;
        if !Fresh(s, i) { j := FirstSame(s, i); }
        assert SameValueZero(s[j], v);
      }
    }
    UniqDistinct(s, |s|);
  }

  lemma {:induction false} UniqDistinct(s: seq<Value>, n: nat)
    requires n <= |s|
    ensures Distinct(Picked(s, FirstOf(s), n))
  {
    if n > 0 {
      UniqDistinct(s, n - 1);
      var u := Picked(s, FirstOf(s), n - 1);
      if Fresh(s, n - 1) {
        PickedContains(s, FirstOf(s), n - 1);
        assert forall j :: 0 <= j < n - 1 ==> s[..n - 1][j] == s[j];
        DistinctAppend(u, s[n - 1]);
      } else {
        assert Picked(s, FirstOf(s), n) == u;
      }
    }
  }

  lemma DistinctAppend(u: seq<Value>, v: Value)
    requires Distinct(u) && !Contains(u, v)
    ensures Distinct(u + [v])
  {
  }

  /** `difference` keeps, in order, what the second list lacks. */
  lemma DifferenceMeaning(s: seq<Value>, values: seq<Value>)
    ensures forall v :: Contains(Difference(s, values), v) <==> Contains(s, v) && !Contains(values, v)
  {
    PickedContains(s, Outside(s, values), |s|);
    forall v ensures Contains(Difference(s, values), v) <==> Contains(s, v) && !Contains(values, v) {
      forall i | 0 <= i < |s| && SameValueZero(s[i], v) ensures Contains(values, s[i]) <==> Contains(values, v) {
        ContainsSame(values, s[i], v);
      }
    }
  }

  lemma ContainsSame(s: seq<Value>, v: Value, w: Value)
    requires SameValueZero(v, w)
    ensures Contains(s, v) <==> Contains(s, w)
  {
  }

  /** The intersection of two lists is what is left, each value once, after removing what the second one lacks. */
  lemma IntersectionByDifference(s: seq<Value>, t: seq<Value>)
    ensures Intersection(s, [t]) == Uniq(Difference(s, Difference(s, t)))
  {
    var d := Difference(s, t);
    DifferenceMeaning(s, t);
    UniqOutside(s, d, |s|);
    forall i | 0 <= i < |s| ensures Common(s, [t])(i) <==> Fresh(s, i) && Outside(s, d)(i) {
      assert SameValueZero(s[i], s[i]) && [t][0] == t;
    }
    PickedSame(s, Common(s, [t]), i => Fresh(s, i) && Outside(s, d)(i), |s|);
  }

  /** First occurrences among the elements outside `d` are first occurrences of the whole list. */
  lemma {:induction false} UniqOutside(s: seq<Value>, d: seq<Value>, n: nat)
    requires n <= |s|
    ensures Uniq(Picked(s, Outside(s, d), n)) == Picked(s, i => Fresh(s, i) && Outside(s, d)(i), n)
  {
    if n > 0 {
      UniqOutside(s, d, n - 1);
      var p := Picked(s, Outside(s, d), n - 1);
      if Outside(s, d)(n - 1) {
        FreshOutside(s, d, n - 1);
        UniqAppend(p, s[n - 1]);
      } else {
        assert Picked(s, Outside(s, d), n) == p;
      }
    }
  }

  lemma FreshOutside(s: seq<Value>, d: seq<Value>, n: nat)
    requires n < |s| && Outside(s, d)(n)
    ensures Contains(Picked(s, Outside(s, d), n), s[n]) <==> !Fresh(s, n)
  {
    PickedContains(s, Outside(s, d), n);
    forall j | 0 <= j < n && SameValueZero(s[j], s[n]) ensures Outside(s, d)(j) {
      ContainsSame(d, s[j], s[n]);
    }
    assert Contains(s[..n], s[n]) <==> exists j :: 0 <= j < n && SameValueZero(s[j], s[n]);
  }

  lemma UniqAppend(p: seq<Value>, v: Value)
    ensures Uniq(p + [v]) == Uniq(p) + if Contains(p, v) then [] else [v]
  {
    var q := p + [v];
    assert q[..|p|] == p;
    forall i | 0 <= i < |p| ensures FirstOf(q)(i) == FirstOf(p)(i) {
      assert q[..i] == p[..i];
    }
    PickedPrefix(q, p, FirstOf(q), FirstOf(p), |p|);
  }

  lemma {:induction false} PickedPrefix(q: seq<Value>, p: seq<Value>, a: int -> bool, b: int -> bool, n: nat)
    requires n <= |p| <= |q| && q[..|p|] == p
    requires forall i :: 0 <= i < n ==> a(i) == b(i)
    ensures Picked(q, a, n) == Picked(p, b, n)
  {
    if n > 0 {
      PickedPrefix(q, p, a, b, n - 1);
      assert q[n - 1] == q[..|p|][n - 1];
    }
  }

  /** Two elements other than NaN that share the key NaN: the scan keeps both, the cache the first. */
  lemma NaNKeysKept()
    ensures var s, keys := [Null, Undefined], [NaN, NaN];
            LinearUniq(s, keys, 2) == [Null, Undefined] && UniqBy(s, keys) == [Null]
  {
    var s, keys := [Null, Undefined], [NaN, NaN];
    assert keys[..1] == [NaN];
    assert keys[..0] == [];
    assert Contains(keys[..1], NaN) by { assert SameValueZero(keys[..1][0], NaN); }
    assert LinearFirst(s, keys)(0) && LinearFirst(s, keys)(1) && FirstOf(keys)(0) && !FirstOf(keys)(1);
    assert Picked(s, LinearFirst(s, keys), 1) == [Null];
    assert Picked(s, FirstOf(keys), 1) == [Null];
  }
}
