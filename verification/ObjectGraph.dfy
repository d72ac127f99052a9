/** Plain JavaScript objects and arrays: a heap of nodes that may share and contain each other in cycles. */
module ObjectGraph {

  datatype Primitive = Undefined | Null | Boolean(b: bool) | Number(n: int) | NotANumber | Text(s: string)

  datatype Value = Prim(p: Primitive) | Ref(o: Obj)

  datatype Key = Index(i: nat) | Name(s: string)

  /** An array has the keys `Index(0)`, `Index(1)`, ...; an object has named keys, in the order of their creation. */
  class Obj {
    const isArray: bool
    var order: seq<Key>
    var props: map<Key, Value>

    /** The initial clone: an array of `length` undefined elements, or an empty object. */
    constructor (isArray: bool, length: nat)
      ensures this.isArray == isArray
      ensures order == if isArray then Indices(length) else []
      ensures props.Keys == (set k | k in order)
      ensures forall k :: k in props ==> props[k] == Prim(Undefined)
      ensures WellFormed()
    {
      this.isArray := isArray;
      var indices := Indices(length);
      this.order := if isArray then indices else [];
      this.props := if isArray then map k | k in indices :: Prim(Undefined) else map[];
    }

    ghost predicate WellFormed()
      reads this
    {
      && (forall k :: k in order <==> k in props)
      && (forall i, j :: 0 <= i < j < |order| ==> order[i] != order[j])
      && (forall i :: 0 <= i < |order| ==> if isArray then order[i] == Index(i) else order[i].Name?)
    }

    /** `this[key] = value` */
    method Assign(key: Key, value: Value)
      modifies this
      ensures order == if key in old(order) then old(order) else old(order) + [key]
      ensures props == old(props)[key := value]
    {
      if key !in order { order := order + [key]; }
      props := props[key := value];
    }
  }

  function Indices(n: nat): (r: seq<Key>)
    ensures |r| == n && forall i :: 0 <= i < n ==> r[i] == Index(i)
  {
    seq(n, i requires 0 <= i < n => Index(i))
  }

  ghost predicate Closed(S: set<Obj>)
    reads S
  {
    forall o :: o in S ==> o.WellFormed() && forall k :: k in o.props && o.props[k].Ref? ==> o.props[k].o in S
  }

  ghost predicate Within(v: Value, S: set<Obj>) {
    v.Ref? ==> v.o in S
  }

  ghost predicate Distinct<T>(s: seq<T>) {
    forall i, j :: 0 <= i < j < |s| ==> s[i] != s[j]
  }

  lemma {:induction false} DistinctBounded<T>(s: seq<T>, S: set<T>)
    requires Distinct(s) && forall i :: 0 <= i < |s| ==> s[i] in S
    ensures |s| <= |S|
  {
    if s != [] {
      var n := |s| - 1;
      DistinctBounded(s[..n], S - {s[n]});
    }
  }
}
