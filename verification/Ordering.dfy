/** The order in which lodash sorts numbers, null, undefined and NaN, against what the comparison operators say. */
module Ordering {

  datatype Value = MinusInfinity | Finite(r: real) | PlusInfinity | Null | Undefined | NaN

  predicate IsNumber(a: Value) {
    a.MinusInfinity? || a.Finite? || a.PlusInfinity?
  }

  // ----- the operators (sections 7.1.3, 7.2.11 and 7.2.13 of ECMA-262 6th edition)

  function ToNumber(a: Value): Value {
    if a.Null? then Finite(0.0) else if a.Undefined? then NaN else a
  }

  predicate Smaller(a: Value, b: Value)
    requires IsNumber(a) && IsNumber(b)
  {
    a != b && (a.MinusInfinity? || b.PlusInfinity? || (a.Finite? && b.Finite? && a.r < b.r))
  }

  /** `a < b` */
  predicate Less(a: Value, b: Value) {
    var x, y := ToNumber(a), ToNumber(b);
    !x.NaN? && !y.NaN? && Smaller(x, y)
  }

  /** `a <= b` */
  predicate AtMost(a: Value, b: Value) {
    var x, y := ToNumber(a), ToNumber(b);
    !x.NaN? && !y.NaN? && !Smaller(y, x)
  }

  /** `a === b` */
  predicate Same(a: Value, b: Value) {
    a == b && !a.NaN?
  }

  // ----- the intended order: numbers, then null, then undefined, then NaN

  function Rank(a: Value): nat {
    match a
    case MinusInfinity => 0
    case Finite(_) => 1
    case PlusInfinity => 2
    case Null => 3
    case Undefined => 4
    case NaN => 5
  }

  predicate Before(a: Value, b: Value) {
    Rank(a) < Rank(b) || (a.Finite? && b.Finite? && a.r < b.r)
  }

  predicate Sorted(s: seq<Value>) {
    forall i, j :: 0 <= i < j < |s| ==> !Before(s[j], s[i])
  }

  lemma BeforeIsWeakOrder(a: Value, b: Value, c: Value)
    ensures Before(a, b) ==> !Before(b, a)
    ensures Before(a, b) && Before(b, c) ==> Before(a, c)
    ensures Before(a, c) ==> Before(a, b) || Before(b, c)
    ensures !Before(a, b) && !Before(b, a) <==> a == b
  {
  }

  /** `baseCompareAscending`, branch for branch */
  function BaseCompareAscending(value: Value, other: Value): int {
    if !Same(value, other) then
      var valIsNull, valIsUndef, valIsReflexive := value.Null?, value.Undefined?, !value.NaN?;
      var othIsNull, othIsUndef, othIsReflexive := other.Null?, other.Undefined?, !other.NaN?;
      if (Less(other, value) && !othIsNull) || !valIsReflexive
         || (valIsNull && !othIsUndef && othIsReflexive)
         || (valIsUndef && othIsReflexive) then 1
      else if (Less(value, other) && !valIsNull) || !othIsReflexive
              || (othIsNull && !valIsUndef && valIsReflexive)
              || (othIsUndef && valIsReflexive) then -1
      else 0
    else 0
  }

  /** The comparison follows the intended order, except that two NaN compare as 1 both ways. */
  lemma CompareAscendingExact(a: Value, b: Value)
    ensures a.NaN? && b.NaN? ==> BaseCompareAscending(a, b) == 1
    ensures !(a.NaN? && b.NaN?) ==>
              BaseCompareAscending(a, b) == if Before(a, b) then -1 else if Before(b, a) then 1 else 0
    ensures BaseCompareAscending(a, b) == -BaseCompareAscending(b, a) <==> !(a.NaN? && b.NaN?)
  {
  }
}
