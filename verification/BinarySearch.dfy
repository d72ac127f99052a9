/** lodash `sortedIndex`: the binary searches for the first or the last place to insert a value. */
module BinarySearch {
  import opened Ordering

  const MAX_ARRAY_LENGTH := 4294967295
  const MAX_ARRAY_INDEX := MAX_ARRAY_LENGTH - 1
  const HALF_MAX_ARRAY_LENGTH := 2147483647

  /** Whether an element with key `a` belongs to the left of the insertion point. */
  predicate LeftOf(a: Value, value: Value, retHighest: bool) {
    if retHighest then !Before(value, a) else Before(a, value)
  }

  /** The number of keys that belong to the left: those before the value, or those not after it. */
  function Bound(keys: seq<Value>, value: Value, retHighest: bool): (n: nat)
    ensures n <= |keys|
  {
    if keys == [] then 0
    else Bound(keys[..|keys| - 1], value, retHighest) + if LeftOf(keys[|keys| - 1], value, retHighest) then 1 else 0
  }

  /** In sorted keys the bound is the point where the left ones end. */
  lemma {:induction false} BoundIs(keys: seq<Value>, value: Value, retHighest: bool, n: nat)
    requires Sorted(keys) && n <= |keys|
    requires forall i :: 0 <= i < n ==> LeftOf(keys[i], value, retHighest)
    requires forall i :: n <= i < |keys| ==> !LeftOf(keys[i], value, retHighest)
    ensures Bound(keys, value, retHighest) == n
  {
    if keys != [] {
      BoundIs(keys[..|keys| - 1], value, retHighest, if n == |keys| then n - 1 else n);
    }
  }

  /** Inserting at the bound keeps the keys sorted, before the equal ones or after them. */
  lemma InsertedSorted(keys: seq<Value>, value: Value, retHighest: bool)
    requires Sorted(keys)
    ensures var n := Bound(keys, value, retHighest);
            Sorted(keys[..n] + [value] + keys[n..])
            && forall i :: 0 <= i < |keys| && keys[i] == value ==> (i < n <==> retHighest)
  {
    BoundSplits(keys, value, retHighest);
  }

  lemma {:induction false} BoundSplits(keys: seq<Value>, value: Value, retHighest: bool)
    requires Sorted(keys)
    ensures var n := Bound(keys, value, retHighest);
            && (forall i :: 0 <= i < n ==> LeftOf(keys[i], value, retHighest))
            && (forall i :: n <= i < |keys| ==> !LeftOf(keys[i], value, retHighest))
  {
    if keys != [] {
      BoundSplits(keys[..|keys| - 1], value, retHighest);
    }
  }

  function Min(a: int, b: int): int {
    if a <= b then a else b
  }

  function Keys<T>(items: seq<T>, iteratee: T -> Value): (keys: seq<Value>)
    ensures |keys| == |items| && forall i :: 0 <= i < |items| ==> keys[i] == iteratee(items[i])
  {
    seq(|items|, i requires 0 <= i < |items| => iteratee(items[i]))
  }

  /** The test by which `binaryIndexBy` moves its lower end. */
  predicate SetLow(computed: Value, value: Value, retHighest: bool) {
    var isDef, isReflexive := !computed.Undefined?, !computed.NaN?;
    if value.NaN? then isReflexive || retHighest
    else if value.Null? then isReflexive && isDef && (retHighest || !computed.Null?)
    else if value.Undefined? then isReflexive && (retHighest || isDef)
    else if computed.Null? || computed.Undefined? then false
    else if retHighest then AtMost(computed, value) else Less(computed, value)
  }

  lemma SetLowIsLeftOf(computed: Value, value: Value, retHighest: bool)
    ensures SetLow(computed, value, retHighest) <==> LeftOf(computed, value, retHighest)
  {
  }

  /** `binaryIndexBy` */
  method BinaryIndexBy<T>(items: seq<T>, item: T, iteratee: T -> Value, retHighest: bool) returns (r: int)
    requires Sorted(Keys(items, iteratee))
    ensures r == Min(Bound(Keys(items, iteratee), iteratee(item), retHighest), MAX_ARRAY_INDEX)
  {
    ghost var keys := Keys(items, iteratee);
    var value := iteratee(item);
    var low, high := 0, |items|;
    while low < high
      invariant 0 <= low <= high <= |items|
      invariant forall i :: 0 <= i < low ==> LeftOf(keys[i], value, retHighest)
      invariant forall i :: high <= i < |items| ==> !LeftOf(keys[i], value, retHighest)
    {
      var mid := (low + high) / 2;
      var computed := iteratee(items[mid]);
      SetLowIsLeftOf(computed, value, retHighest);
      if SetLow(computed, value, retHighest) {
        low := mid + 1;
      } else {
        high := mid;
      }
    }
    BoundIs(keys, value, retHighest, low);
    r := Min(high, MAX_ARRAY_INDEX);
  }

  /** `(low + high) >>> 1`, which works on 32 bits */
  function Halved(low: nat, high: nat): nat {
    (low + high) % 0x1_0000_0000 / 2
  }

  /** The shift gives the middle of every range of an array exactly up to this length. */
  lemma HalvedExact(length: nat)
    ensures (forall low: nat, high: nat :: low < high <= length ==> Halved(low, high) == (low + high) / 2)
            <==> length <= HALF_MAX_ARRAY_LENGTH + 1
  {
    if length > HALF_MAX_ARRAY_LENGTH + 1 {
      assert Halved(HALF_MAX_ARRAY_LENGTH + 1, HALF_MAX_ARRAY_LENGTH + 2) == 0;
    }
  }

  /** `binaryIndex`, with its fast path for numbers */
  method BinaryIndex(items: seq<Value>, value: Value, retHighest: bool) returns (r: int)
    requires Sorted(items)
    ensures r == Min(Bound(items, value, retHighest), MAX_ARRAY_INDEX)
  {
    if IsNumber(value) && |items| <= HALF_MAX_ARRAY_LENGTH {
      var low, high := 0, |items|;
      while low < high
        invariant 0 <= low <= high <= |items|
        invariant forall i :: 0 <= i < low ==> LeftOf(items[i], value, retHighest)
        invariant forall i :: high <= i < |items| ==> !LeftOf(items[i], value, retHighest)
      {
        var mid := Halved(low, high);
        var computed := items[mid];
        if (if retHighest then AtMost(computed, value) else Less(computed, value)) && !computed.Null? {
          low := mid + 1;
        } else {
          high := mid;
        }
      }
      BoundIs(items, value, retHighest, low);
      r := high;
    } else {
      assert Keys(items, v => v) == items;
      r := BinaryIndexBy(items, value, v => v, retHighest);
    }
  }
}
