/** lodash `sortByOrder`: sorting by several criteria in given directions, stable whatever the host's sort does. */
module MultiSort {
  import opened Ordering

  datatype Order = Asc | Desc

  datatype Entry<+T> = Entry(criteria: seq<Value>, index: nat, value: T)

  // ----- compareMultiple

  /** `compareMultiple` from criterion `k` on */
  function Compare<T>(entry: Entry<T>, other: Entry<T>, orders: seq<Order>, k: nat): int
    requires |entry.criteria| == |other.criteria|
    decreases |entry.criteria| - k
  {
    if k >= |entry.criteria| then entry.index - other.index
    else
      var result := BaseCompareAscending(entry.criteria[k], other.criteria[k]);
      if result == 0 then Compare(entry, other, orders, k + 1)
      else if k < |orders| && orders[k].Desc? then -result
      else result
  }

  /** The loop. */
  method CompareMultiple<T>(entry: Entry<T>, other: Entry<T>, orders: seq<Order>) returns (r: int)
    requires |entry.criteria| == |other.criteria|
    ensures r == Compare(entry, other, orders, 0)
  {
    var index := 0;
    while index < |entry.criteria|
      invariant 0 <= index <= |entry.criteria|
      invariant Compare(entry, other, orders, 0) == Compare(entry, other, orders, index)
    {
      var result := BaseCompareAscending(entry.criteria[index], other.criteria[index]);
      if result != 0 {
        if index >= |orders| { return result; }
        return result * if orders[index].Asc? then 1 else -1;
      }
      index := index + 1;
    }
    return entry.index - other.index;
  }

  // ----- the intended order

  /** `a` comes before `b` under the k-th criterion in its direction. */
  predicate Precedes(a: seq<Value>, b: seq<Value>, orders: seq<Order>, k: nat)
    requires k < |a| == |b|
  {
    if k < |orders| && orders[k].Desc? then Before(b[k], a[k]) else Before(a[k], b[k])
  }

  /** `a` comes before `b` under the first criterion in which they differ. */
  predicate Lexicographic(a: seq<Value>, b: seq<Value>, orders: seq<Order>)
    requires |a| == |b|
  {
    exists k :: 0 <= k < |a| && a[..k] == b[..k] && Precedes(a, b, orders, k)
  }

  predicate ComesFirst<T>(a: Entry<T>, b: Entry<T>, orders: seq<Order>)
    requires |a.criteria| == |b.criteria|
  {
    Lexicographic(a.criteria, b.criteria, orders) || (a.criteria == b.criteria && a.index < b.index)
  }

  predicate NoNaN(a: seq<Value>) {
    forall k :: 0 <= k < |a| ==> !a[k].NaN?
  }

  /** The first position where the criteria differ, or their common length. */
  lemma {:induction false} FirstDifference(a: seq<Value>, b: seq<Value>, from: nat) returns (k: nat)
    requires |a| == |b| && from <= |a| && a[..from] == b[..from]
    ensures from <= k <= |a| && a[..k] == b[..k] && (k < |a| ==> a[k] != b[k])
    decreases |a| - from
  {
    if from == |a| || a[from] != b[from] {
      k := from;
    } else {
      assert a[..from + 1] == a[..from] + [a[from]];
      assert b[..from + 1] == b[..from] + [b[from]];
      k := FirstDifference(a, b, from + 1);
    }
  }

  lemma {:induction false} CompareSkips<T>(a: Entry<T>, b: Entry<T>, orders: seq<Order>, k: nat, from: nat)
    requires |a.criteria| == |b.criteria| && from <= k <= |a.criteria| && a.criteria[..k] == b.criteria[..k]
    requires NoNaN(a.criteria)
    ensures Compare(a, b, orders, from) == Compare(a, b, orders, k)
    decreases k - from
  {
    if from < k {
      assert a.criteria[from] == a.criteria[..k][from] == b.criteria[..k][from] == b.criteria[from];
      CompareSkips(a, b, orders, k, from + 1);
    }
  }

  lemma LexicographicAt(a: seq<Value>, b: seq<Value>, orders: seq<Order>, k: nat)
    requires |a| == |b| && k <= |a| && a[..k] == b[..k] && (k < |a| ==> a[k] != b[k])
    ensures Lexicographic(a, b, orders) <==> k < |a| && Precedes(a, b, orders, k)
  {
  }

  /** Without NaN the comparison is the intended order. */
  lemma CompareIsOrder<T>(a: Entry<T>, b: Entry<T>, orders: seq<Order>)
    requires |a.criteria| == |b.criteria| && NoNaN(a.criteria) && NoNaN(b.criteria)
    ensures Compare(a, b, orders, 0) < 0 <==> ComesFirst(a, b, orders)
    ensures Compare(a, b, orders, 0) > 0 <==> ComesFirst(b, a, orders)
  {
    var k := FirstDifference(a.criteria, b.criteria, 0);
    CompareSkips(a, b, orders, k, 0);
    LexicographicAt(a.criteria, b.criteria, orders, k);
    LexicographicAt(b.criteria, a.criteria, orders, k);
    if k < |a.criteria| {
      CompareAscendingExact(a.criteria[k], b.criteria[k]);
    } else {
      assert a.criteria[..k] == a.criteria && b.criteria[..k] == b.criteria;
    }
  }

  lemma LexicographicTransitive(a: seq<Value>, b: seq<Value>, c: seq<Value>, orders: seq<Order>)
    requires |a| == |b| == |c| && Lexicographic(a, b, orders) && Lexicographic(b, c, orders)
    ensures Lexicographic(a, c, orders)
  {
  }

  // ----- consistent comparison functions

  /** A consistent comparison function (section 22.1.3.24 of ECMA-262 6th edition). */
  ghost predicate Consistent<T>(s: seq<Entry<T>>, comparer: (Entry<T>, Entry<T>) -> int) {
    && (forall a | a in s :: comparer(a, a) == 0)
    && (forall a, b | a in s && b in s :: comparer(a, b) < 0 <==> comparer(b, a) > 0)
    && (forall a, b, c | a in s && b in s && c in s ::
          (comparer(a, b) < 0 && comparer(b, c) < 0 ==> comparer(a, c) < 0)
          && (comparer(a, b) == 0 && comparer(b, c) == 0 ==> comparer(a, c) == 0))
  }

  /** What a sort owes: the same elements, none after one that it precedes. */
  ghost predicate IsSorting<T>(r: seq<Entry<T>>, s: seq<Entry<T>>, comparer: (Entry<T>, Entry<T>) -> int) {
    multiset(r) == multiset(s) && InOrder(r, comparer)
  }

  /** Entries as `baseSortByOrder` makes them: one index each, the same number of criteria. */
  ghost predicate Indexed<T>(s: seq<Entry<T>>, n: nat) {
    forall i :: 0 <= i < |s| ==> s[i].index == i && |s[i].criteria| == n
  }

  function Comparer<T>(orders: seq<Order>): (Entry<T>, Entry<T>) -> int {
    (a: Entry<T>, b: Entry<T>) => if |a.criteria| == |b.criteria| then Compare(a, b, orders, 0) else 0
  }

  /** The comparison is consistent exactly when no criterion is NaN. */
  lemma ConsistentExact<T>(s: seq<Entry<T>>, n: nat, orders: seq<Order>)
    requires Indexed(s, n)
    ensures Consistent(s, Comparer(orders)) <==> forall e | e in s :: NoNaN(e.criteria)
  {
    if forall e | e in s :: NoNaN(e.criteria) {
      OrderConsistent(s, n, orders);
    } else {
      var e :| e in s && !NoNaN(e.criteria);
      NaNUnequalToItself(e, orders, 0);
    }
  }

  lemma {:induction false} NaNUnequalToItself<T>(e: Entry<T>, orders: seq<Order>, from: nat)
    requires from <= |e.criteria| && exists k :: from <= k < |e.criteria| && e.criteria[k].NaN?
    ensures Compare(e, e, orders, from) != 0
    decreases |e.criteria| - from
  {
    if !e.criteria[from].NaN? { NaNUnequalToItself(e, orders, from + 1); }
  }

  lemma OrderConsistent<T>(s: seq<Entry<T>>, n: nat, orders: seq<Order>)
    requires Indexed(s, n) && forall e | e in s :: NoNaN(e.criteria)
    ensures Consistent(s, Comparer(orders))
  {
    forall a, b | a in s && b in s
      ensures Comparer(orders)(a, b) < 0 <==> ComesFirst(a, b, orders)
      ensures Comparer(orders)(a, b) > 0 <==> ComesFirst(b, a, orders)
      ensures Comparer(orders)(a, b) == 0 <==> a == b
    {
      CompareIsOrder(a, b, orders);
      OrderTotal(a, b, orders);
      if a.index == b.index { assert a == b; }
    }
    forall a, b, c | a in s && b in s && c in s && ComesFirst(a, b, orders) && ComesFirst(b, c, orders)
      ensures ComesFirst(a, c, orders)
    {
      if Lexicographic(a.criteria, b.criteria, orders) && Lexicographic(b.criteria, c.criteria, orders) {
        LexicographicTransitive(a.criteria, b.criteria, c.criteria, orders);
      }
    }
  }

  lemma OrderTotal<T>(a: Entry<T>, b: Entry<T>, orders: seq<Order>)
    requires |a.criteria| == |b.criteria|
    ensures ComesFirst(a, b, orders) || ComesFirst(b, a, orders) || (a.criteria == b.criteria && a.index == b.index)
    ensures !(ComesFirst(a, b, orders) && ComesFirst(b, a, orders))
  {
    var k := FirstDifference(a.criteria, b.criteria, 0);
    LexicographicAt(a.criteria, b.criteria, orders, k);
    LexicographicAt(b.criteria, a.criteria, orders, k);
    if k < |a.criteria| {
      BeforeIsWeakOrder(a.criteria[k], b.criteria[k], b.criteria[k]);
      BeforeIsWeakOrder(b.criteria[k], a.criteria[k], a.criteria[k]);
    } else {
      assert a.criteria[..k] == a.criteria && b.criteria[..k] == b.criteria;
    }
  }

  // ----- the one sorted order

  /** No two different entries compare as equal, nor as smaller both ways. */
  ghost predicate Strict<T>(s: seq<Entry<T>>, comparer: (Entry<T>, Entry<T>) -> int) {
    forall a, b | a in s && b in s :: comparer(a, b) <= 0 && comparer(b, a) <= 0 ==> a == b
  }

  ghost predicate InOrder<T>(r: seq<Entry<T>>, comparer: (Entry<T>, Entry<T>) -> int) {
    forall i, j :: 0 <= i < j < |r| ==> comparer(r[i], r[j]) <= 0
  }

  /** Two sortings of the same entries are equal. */
  lemma {:induction false} SortingUnique<T>(r: seq<Entry<T>>, q: seq<Entry<T>>, comparer: (Entry<T>, Entry<T>) -> int)
    requires multiset(r) == multiset(q) && InOrder(r, comparer) && InOrder(q, comparer) && Strict(q, comparer)
    ensures r == q
  {
    assert |r| == |multiset(r)| == |multiset(q)| == |q|;
    if r != [] {
      SameHead(r, q, comparer);
      TailElements(r);
      TailElements(q);
      SortingUnique(r[1..], q[1..], comparer);
    }
  }

  lemma TailElements<T>(s: seq<T>)
    requires s != []
    ensures multiset(s[1..]) == multiset(s) - multiset{s[0]}
  {
    assert s == [s[0]] + s[1..];
  }

  lemma SameHead<T>(r: seq<Entry<T>>, q: seq<Entry<T>>, comparer: (Entry<T>, Entry<T>) -> int)
    requires r != [] && q != [] && multiset(r) == multiset(q)
    requires InOrder(r, comparer) && InOrder(q, comparer) && Strict(q, comparer)
    ensures r[0] == q[0]
  {
    assert r[0] in multiset(q) && q[0] in multiset(r);
    var i :| 0 <= i < |q| && q[i] == r[0];
    var j :| 0 <= j < |r| && r[j] == q[0];
  }

  /** Inserts an entry before the first one that it precedes by its criteria. */
  function Insert<T>(x: Entry<T>, s: seq<Entry<T>>, orders: seq<Order>): seq<Entry<T>>
    requires forall e | e in s :: |e.criteria| == |x.criteria|
  {
    if s == [] then [x]
    else if Lexicographic(x.criteria, s[0].criteria, orders) then [x] + s
    else [s[0]] + Insert(x, s[1..], orders)
  }

  /** The reference: entries taken in turn, each inserted after those it does not precede. */
  function StableSort<T>(s: seq<Entry<T>>, n: nat, orders: seq<Order>): (r: seq<Entry<T>>)
    requires forall e | e in s :: |e.criteria| == n
    ensures multiset(r) == multiset(s)
  {
    if s == [] then []
    else
      var k := |s| - 1;
      assert s == s[..k] + [s[k]];
      var t := StableSort(s[..k], n, orders);
      assert forall e | e in t :: e in multiset(t);
      InsertElements(s[k], t, orders);
      Insert(s[k], t, orders)
  }

  lemma {:induction false} InsertElements<T>(x: Entry<T>, s: seq<Entry<T>>, orders: seq<Order>)
    requires forall e | e in s :: |e.criteria| == |x.criteria|
    ensures multiset(Insert(x, s, orders)) == multiset(s) + multiset{x}
  {
    if s != [] && !Lexicographic(x.criteria, s[0].criteria, orders) {
      InsertElements(x, s[1..], orders);
      assert s == [s[0]] + s[1..];
    }
  }

  /** The reference is in the intended order: by the criteria, then by the index. */
  lemma {:induction false} StableSortOrdered<T>(s: seq<Entry<T>>, n: nat, orders: seq<Order>)
    requires Indexed(s, n)
    ensures Ordered(StableSort(s, n, orders), n, orders)
  {
    if s != [] {
      var k := |s| - 1;
      var t := StableSort(s[..k], n, orders);
      StableSortOrdered(s[..k], n, orders);
      forall e | e in t ensures e.index < s[k].index && |e.criteria| == n {
        assert e in multiset(t) && e in s[..k];
      }
      InsertOrdered(s[k], t, n, orders);
    }
  }

  ghost predicate Ordered<T>(r: seq<Entry<T>>, n: nat, orders: seq<Order>) {
    && (forall e | e in r :: |e.criteria| == n)
    && forall i, j :: 0 <= i < j < |r| ==> ComesFirst(r[i], r[j], orders)
  }

  lemma {:induction false} InsertOrdered<T>(x: Entry<T>, s: seq<Entry<T>>, n: nat, orders: seq<Order>)
    requires Ordered(s, n, orders) && |x.criteria| == n && forall e | e in s :: e.index < x.index
    ensures Ordered(Insert(x, s, orders), n, orders)
  {
    if s != [] {
      if Lexicographic(x.criteria, s[0].criteria, orders) {
        forall i | 0 <= i < |s| ensures ComesFirst(x, s[i], orders) {
          if i > 0 && s[i].criteria != s[0].criteria {
            LexicographicTransitive(x.criteria, s[0].criteria, s[i].criteria, orders);
          }
        }
      } else {
        OrderTotal(x, s[0], orders);
        InsertOrdered(x, s[1..], n, orders);
        InsertElements(x, s[1..], orders);
        var r := Insert(x, s[1..], orders);
        forall e | e in r ensures ComesFirst(s[0], e, orders) {
          assert e in multiset(r);
          assert e == x || e in s[1..];
        }
      }
    }
  }

  // ----- the methods

  function Criteria<T>(iteratees: seq<T -> Value>, value: T): (c: seq<Value>)
    ensures |c| == |iteratees|
  {
    seq(|iteratees|, k requires 0 <= k < |iteratees| => iteratees[k](value))
  }

  function Entries<T>(collection: seq<T>, iteratees: seq<T -> Value>): (s: seq<Entry<T>>)
    ensures |s| == |collection| && Indexed(s, |iteratees|)
    ensures forall i :: 0 <= i < |s| ==>
              s[i].value == collection[i] && s[i].criteria == Criteria(iteratees, collection[i])
  {
    seq(|collection|, i requires 0 <= i < |collection| => Entry(Criteria(iteratees, collection[i]), i, collection[i]))
  }

  function Values<T>(s: seq<Entry<T>>): seq<T> {
    seq(|s|, i requires 0 <= i < |s| => s[i].value)
  }

  /** The host's `Array.prototype.sort`: any function that sorts by every consistent comparison. */
  type Sort<!T> = (seq<Entry<T>>, (Entry<T>, Entry<T>) -> int) -> seq<Entry<T>>

  ghost predicate Sorts<T(!new)>(sort: Sort<T>) {
    forall s, comparer :: Consistent(s, comparer) ==> IsSorting(sort(s, comparer), s, comparer)
  }

  /** `baseSortBy`: sort, then unwrap the entries from the last to the first. */
  method BaseSortBy<T>(entries: seq<Entry<T>>, sort: Sort<T>, comparer: (Entry<T>, Entry<T>) -> int) returns (r: seq<T>)
    ensures r == Values(sort(entries, comparer))
  {
    var sorted := sort(entries, comparer);
    var length := |sorted|;
    r := [];
    while length > 0
      invariant 0 <= length <= |sorted| && |r| == |sorted| - length
      invariant forall i :: 0 <= i < |r| ==> r[i] == sorted[length + i].value
    {
      length := length - 1;
      r := [sorted[length].value] + r;
    }
  }

  /** `baseSortByOrder`: whatever the host's sort does, the result is the stable one. */
  method BaseSortByOrder<T(!new)>(collection: seq<T>, iteratees: seq<T -> Value>, orders: seq<Order>, sort: Sort<T>)
    returns (r: seq<T>)
    requires Sorts(sort)
    ensures (forall i, k :: 0 <= i < |collection| && 0 <= k < |iteratees| ==> !iteratees[k](collection[i]).NaN?) ==>
              r == Values(StableSort(Entries(collection, iteratees), |iteratees|, orders))
  {
    var entries := [];
    for index := 0 to |collection|
      invariant entries == Entries(collection, iteratees)[..index]
    {
      entries := entries + [Entry(Criteria(iteratees, collection[index]), index, collection[index])];
    }
    assert entries == Entries(collection, iteratees);
    if forall i, k :: 0 <= i < |collection| && 0 <= k < |iteratees| ==> !iteratees[k](collection[i]).NaN? {
      AnySortIsStable(entries, |iteratees|, orders, sort);
    }
    r := BaseSortBy(entries, sort, Comparer(orders));
  }

  /** `x` comes before `y` by the first iteratee that tells them apart, in its direction. */
  ghost predicate GoesFirst<T>(x: T, y: T, iteratees: seq<T -> Value>, orders: seq<Order>) {
    exists k :: 0 <= k < |iteratees| && SameUpTo(x, y, iteratees, k) &&
                var a, b := iteratees[k](x), iteratees[k](y);
                if k < |orders| && orders[k] == Desc then Before(b, a) else Before(a, b)
  }

  ghost predicate SameUpTo<T>(x: T, y: T, iteratees: seq<T -> Value>, k: nat)
    requires k <= |iteratees|
  {
    forall m :: 0 <= m < k ==> iteratees[m](x) == iteratees[m](y)
  }

  /** The elements in another order, those that the iteratees do not tell apart in their old order. */
  ghost predicate Rearranged<T>(at: seq<nat>, collection: seq<T>, iteratees: seq<T -> Value>, orders: seq<Order>) {
    && |at| == |collection| && (forall i :: 0 <= i < |at| ==> at[i] < |collection|)
    && (forall i, j :: 0 <= i < j < |at| ==> at[i] != at[j])
    && (forall i, j :: 0 <= i < j < |at| ==>
          var x, y := collection[at[i]], collection[at[j]];
          GoesFirst(x, y, iteratees, orders) || (SameUpTo(x, y, iteratees, |iteratees|) && at[i] < at[j]))
  }

  /** What the stable order is: `at[i]` is the old place of the i-th element. */
  lemma StableSortMeaning<T>(collection: seq<T>, iteratees: seq<T -> Value>, orders: seq<Order>)
    returns (at: seq<nat>)
    ensures Rearranged(at, collection, iteratees, orders)
    ensures var r := Values(StableSort(Entries(collection, iteratees), |iteratees|, orders));
            |r| == |at| && forall i :: 0 <= i < |at| ==> r[i] == collection[at[i]]
  {
    var s := Entries(collection, iteratees);
    var q := StableSort(s, |iteratees|, orders);
    at := seq(|q|, i requires 0 <= i < |q| => q[i].index);
    assert |q| == |multiset(q)| == |multiset(s)| == |s|;
    StableSortOrdered(s, |iteratees|, orders);
    forall i | 0 <= i < |q| ensures q[i] in s {
      assert q[i] in multiset(q);
    }
    forall i, j | 0 <= i < j < |q|
      ensures at[i] != at[j]
      ensures var x, y := collection[at[i]], collection[at[j]];
              GoesFirst(x, y, iteratees, orders) || (SameUpTo(x, y, iteratees, |iteratees|) && at[i] < at[j])
    {
      OrderTotal(q[i], q[j], orders);
      EntriesApart(collection, iteratees, orders, q[i], q[j]);
    }
  }

  lemma EntriesApart<T>(collection: seq<T>, iteratees: seq<T -> Value>, orders: seq<Order>, e: Entry<T>, f: Entry<T>)
    requires e in Entries(collection, iteratees) && f in Entries(collection, iteratees)
    requires ComesFirst(e, f, orders) && !ComesFirst(f, e, orders)
    ensures e.index != f.index
    ensures GoesFirst(collection[e.index], collection[f.index], iteratees, orders) ||
            (SameUpTo(collection[e.index], collection[f.index], iteratees, |iteratees|) && e.index < f.index)
  {
    var x, y := collection[e.index], collection[f.index];
    if Lexicographic(e.criteria, f.criteria, orders) {
      var k :| 0 <= k < |e.criteria| && e.criteria[..k] == f.criteria[..k] &&
              Precedes(e.criteria, f.criteria, orders, k);
      forall m | 0 <= m < k ensures iteratees[m](x) == iteratees[m](y) {
        assert e.criteria[..k][m] == e.criteria[m] && f.criteria[..k][m] == f.criteria[m];
      }
      assert SameUpTo(x, y, iteratees, k);
    } else {
      forall m | 0 <= m < |iteratees| ensures iteratees[m](x) == iteratees[m](y) {
        assert e.criteria[m] == f.criteria[m];
      }
    }
  }

  /** Every correct sort gives the stable order. */
  lemma AnySortIsStable<T(!new)>(s: seq<Entry<T>>, n: nat, orders: seq<Order>, sort: Sort<T>)
    requires Sorts(sort) && Indexed(s, n) && forall e | e in s :: NoNaN(e.criteria)
    ensures sort(s, Comparer(orders)) == StableSort(s, n, orders)
  {
    OrderConsistent(s, n, orders);
    StableSortOrdered(s, n, orders);
    var q := StableSort(s, n, orders);
    forall a | a in q ensures NoNaN(a.criteria) {
      assert a in multiset(q);
    }
    OrderedStrict(q, n, orders);
    SortingUnique(sort(s, Comparer(orders)), q, Comparer(orders));
  }

  /** In entries in the intended order the comparison never ties. */
  lemma OrderedStrict<T>(q: seq<Entry<T>>, n: nat, orders: seq<Order>)
    requires Ordered(q, n, orders) && forall a | a in q :: NoNaN(a.criteria)
    ensures InOrder(q, Comparer(orders)) && Strict(q, Comparer(orders))
  {
    forall i, j | 0 <= i < j < |q| ensures Compare(q[i], q[j], orders, 0) < 0 && Compare(q[j], q[i], orders, 0) > 0 {
      CompareIsOrder(q[i], q[j], orders);
      CompareIsOrder(q[j], q[i], orders);
    }
    forall a, b | a in q && b in q && a != b ensures Compare(a, b, orders, 0) > 0 || Compare(b, a, orders, 0) > 0 {
      var i :| 0 <= i < |q| && q[i] == a;
      var j :| 0 <= j < |q| && q[j] == b;
    }
  }

  // ----- several criteria, one after the other

  /** Entries in the intended order are determined by their elements. */
  lemma OrderedUnique<T>(r: seq<Entry<T>>, q: seq<Entry<T>>, n: nat, orders: seq<Order>)
    requires multiset(r) == multiset(q) && Ordered(r, n, orders) && Ordered(q, n, orders)
    ensures r == q
  {
    var comparer := (a: Entry<T>, b: Entry<T>) =>
      if |a.criteria| != |b.criteria| || a == b then 0 else if ComesFirst(a, b, orders) then -1 else 1;
    forall a, b | a in q && b in q && a != b ensures comparer(a, b) > 0 || comparer(b, a) > 0 {
      OrderTotal(a, b, orders);
    }
    SortingUnique(r, q, comparer);
  }

  function Mapped<A, B>(h: A -> B, s: seq<A>): (r: seq<B>)
    ensures |r| == |s|
  {
    seq(|s|, i requires 0 <= i < |s| => h(s[i]))
  }

  lemma TakenOut<A>(s: seq<A>, k: nat)
    requires k < |s|
    ensures multiset(s) == multiset(s[..k] + s[k + 1..]) + multiset{s[k]}
    ensures multiset(s) - multiset{s[k]} == multiset(s[..k] + s[k + 1..])
  {
    assert s == s[..k] + [s[k]] + s[k + 1..];
  }

  lemma MappedTakenOut<A, B>(h: A -> B, s: seq<A>, k: nat)
    requires k < |s|
    ensures multiset(Mapped(h, s)) == multiset(Mapped(h, s[..k] + s[k + 1..])) + multiset{h(s[k])}
  {
    TakenOut(Mapped(h, s), k);
    assert Mapped(h, s)[..k] + Mapped(h, s)[k + 1..] == Mapped(h, s[..k] + s[k + 1..]);
  }

  lemma {:induction false} MappedElements<A, B>(h: A -> B, s: seq<A>, t: seq<A>)
    requires multiset(s) == multiset(t)
    ensures multiset(Mapped(h, s)) == multiset(Mapped(h, t))
    decreases |s|
  {
    assert |s| == |multiset(s)| == |multiset(t)| == |t|;
    if s != [] {
      assert s[0] in multiset(t);
      var k :| 0 <= k < |t| && t[k] == s[0];
      var u, v := s[..0] + s[1..], t[..k] + t[k + 1..];
      SameRest(s, t, k);
      MappedElements(h, u, v);
      MappedTakenOut(h, s, 0);
      MappedTakenOut(h, t, k);
    }
  }

  lemma SameRest<A>(s: seq<A>, t: seq<A>, k: nat)
    requires s != [] && k < |t| && t[k] == s[0] && multiset(s) == multiset(t)
    ensures multiset(s[..0] + s[1..]) == multiset(t[..k] + t[k + 1..])
  {
    TakenOut(s, 0);
    TakenOut(t, k);
  }

  /** Sorting a collection by one criterion. */
  function SortedBy<T>(c: seq<T>, f: T -> Value, order: Order): seq<Entry<T>> {
    StableSort(Entries(c, [f]), 1, [order])
  }

  lemma SortedByElements<T>(c: seq<T>, f: T -> Value, order: Order)
    ensures Ordered(SortedBy(c, f, order), 1, [order]) && |SortedBy(c, f, order)| == |c|
    ensures forall e | e in SortedBy(c, f, order) ::
              e.index < |c| && e.value == c[e.index] && e.criteria == [f(e.value)]
  {
    var s, r := Entries(c, [f]), SortedBy(c, f, order);
    StableSortOrdered(s, 1, [order]);
    assert |r| == |multiset(r)| == |multiset(s)| == |c|;
    forall e | e in r ensures e.index < |c| && e.value == c[e.index] && e.criteria == [f(e.value)] {
      assert e in multiset(r) && e in s;
      assert Criteria([f], e.value) == [f(e.value)];
    }
  }

  /** The entry with both criteria that the second sort moves, `q` being the result of the first sort. */
  function Both<T>(f: T -> Value, g: T -> Value, q: seq<Entry<T>>, x: Entry<T>): Entry<T> {
    Entry([f(x.value), g(x.value)], if x.index < |q| then q[x.index].index else 0, x.value)
  }

  /** Sorting by a less important criterion first and by a more important one then is sorting by both. */
  lemma SortTwice<T>(c: seq<T>, f: T -> Value, g: T -> Value, first: Order, second: Order)
    ensures Values(StableSort(Entries(c, [f, g]), 2, [first, second]))
         == Values(SortedBy(Values(SortedBy(c, g, second)), f, first))
  {
    var q := SortedBy(c, g, second);
    var p := SortedBy(Values(q), f, first);
    SortedByElements(c, g, second);
    SortedByElements(Values(q), f, first);
    var h := x => Both(f, g, q, x);
    SortTwiceElements(c, f, g, first, second);
    BothOrdered(c, f, g, first, second);
    StableSortOrdered(Entries(c, [f, g]), 2, [first, second]);
    OrderedUnique(Mapped(h, p), StableSort(Entries(c, [f, g]), 2, [first, second]), 2, [first, second]);
    assert Values(Mapped(h, p)) == Values(p);
  }

  lemma SortTwiceElements<T>(c: seq<T>, f: T -> Value, g: T -> Value, first: Order, second: Order)
    ensures var q := SortedBy(c, g, second);
            multiset(Mapped(x => Both(f, g, q, x), SortedBy(Values(q), f, first))) == multiset(Entries(c, [f, g]))
  {
    var q := SortedBy(c, g, second);
    SortedByElements(c, g, second);
    var h := x => Both(f, g, q, x);
    var own := (x: Entry<T>) => Entry([f(x.value), g(x.value)], x.index, x.value);
    MappedElements(h, SortedBy(Values(q), f, first), Entries(Values(q), [f]));
    assert Mapped(h, Entries(Values(q), [f])) == Mapped(own, q);
    MappedElements(own, q, Entries(c, [g]));
    OwnEntries(c, f, g, own);
  }

  lemma OwnEntries<T>(c: seq<T>, f: T -> Value, g: T -> Value, own: Entry<T> -> Entry<T>)
    requires forall x :: own(x) == Entry([f(x.value), g(x.value)], x.index, x.value)
    ensures Mapped(own, Entries(c, [g])) == Entries(c, [f, g])
  {
    forall i | 0 <= i < |c| ensures Mapped(own, Entries(c, [g]))[i] == Entries(c, [f, g])[i] {
      assert Criteria([f, g], c[i]) == [f(c[i]), g(c[i])];
    }
  }

  lemma BothOrdered<T>(c: seq<T>, f: T -> Value, g: T -> Value, first: Order, second: Order)
    ensures var q := SortedBy(c, g, second);
            Ordered(Mapped(x => Both(f, g, q, x), SortedBy(Values(q), f, first)), 2, [first, second])
  {
    var q := SortedBy(c, g, second);
    var p := SortedBy(Values(q), f, first);
    forall i, j | 0 <= i < j < |p| ensures ComesFirst(Both(f, g, q, p[i]), Both(f, g, q, p[j]), [first, second]) {
      BothAt(c, f, g, first, second, i, j);
    }
  }

  lemma BothAt<T>(c: seq<T>, f: T -> Value, g: T -> Value, first: Order, second: Order, i: nat, j: nat)
    requires i < j < |SortedBy(Values(SortedBy(c, g, second)), f, first)|
    ensures var q := SortedBy(c, g, second);
            var p := SortedBy(Values(q), f, first);
            ComesFirst(Both(f, g, q, p[i]), Both(f, g, q, p[j]), [first, second])
  {
    var q := SortedBy(c, g, second);
    var p := SortedBy(Values(q), f, first);
    SortedAt(Values(q), f, first, i);
    SortedAt(Values(q), f, first, j);
    SortedAt(c, g, second, p[i].index);
    SortedAt(c, g, second, p[j].index);
    BothFirst(f, g, q, p[i], p[j], first, second);
  }

  lemma SortedAt<T>(c: seq<T>, f: T -> Value, order: Order, i: nat)
    requires i < |SortedBy(c, f, order)|
    ensures Ordered(SortedBy(c, f, order), 1, [order]) && |SortedBy(c, f, order)| == |c|
    ensures var e := SortedBy(c, f, order)[i]; e.index < |c| && e.value == c[e.index] && e.criteria == [f(e.value)]
  {
    SortedByElements(c, f, order);
    assert SortedBy(c, f, order)[i] in SortedBy(c, f, order);
  }

  lemma BothFirst<T>(f: T -> Value, g: T -> Value, q: seq<Entry<T>>, x: Entry<T>, y: Entry<T>, first: Order,
                     second: Order)
    requires x.index < |q| && y.index < |q| && x.criteria == [f(x.value)] && y.criteria == [f(y.value)]
    requires q[x.index].criteria == [g(x.value)] && q[y.index].criteria == [g(y.value)]
    requires ComesFirst(x, y, [first]) && Ordered(q, 1, [second])
    ensures ComesFirst(Both(f, g, q, x), Both(f, g, q, y), [first, second])
  {
    var a, b := Both(f, g, q, x), Both(f, g, q, y);
    if Lexicographic(x.criteria, y.criteria, [first]) {
      assert a.criteria[..0] == b.criteria[..0] && Precedes(a.criteria, b.criteria, [first, second], 0);
    } else {
      var m, n := q[x.index], q[y.index];
      assert x.criteria[0] == y.criteria[0] && ComesFirst(m, n, [second]);
      if Lexicographic(m.criteria, n.criteria, [second]) {
        assert a.criteria[..1] == b.criteria[..1] && Precedes(a.criteria, b.criteria, [first, second], 1);
      } else {
        assert m.criteria[0] == n.criteria[0];
      }
    }
  }

  /** An entry with a NaN criterion comes after itself. */
  lemma NaNAfterItself()
    ensures var e := Entry([NaN], 0, 7); Comparer([])(e, e) == 1 && !Consistent([e], Comparer([]))
  {
    var e := Entry([NaN], 0, 7);
    assert e in [e];
  }
}
