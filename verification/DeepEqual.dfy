/** lodash's strict `baseIsEqual` on plain objects and arrays: comparison that assumes pairs under way to be equal. */
module DeepEqual {
  import opened ObjectGraph

  datatype Pair = Pair(a: Obj, b: Obj)

  /** The nodes of a graph with their contents, as they are while a comparison runs. */
  datatype Node = Node(isArray: bool, props: map<Key, Value>)
  type Graph = map<Obj, Node>

  ghost predicate Complete(g: Graph) {
    forall o, k :: o in g && k in g[o].props ==> In(g[o].props[k], g)
  }

  ghost predicate In(v: Value, g: Graph) {
    v.Ref? ==> v.o in g
  }

  ghost predicate Shown(g: Graph)
    reads g.Keys
  {
    Complete(g) && forall o :: o in g ==> o.WellFormed() && g[o] == Node(o.isArray, o.props)
  }

  ghost predicate OnStack(stack: seq<Pair>, o: Obj) {
    exists i :: 0 <= i < |stack| && stack[i].a == o
  }

  ghost predicate StackIn(g: Graph, stack: seq<Pair>) {
    && (forall i :: 0 <= i < |stack| ==> stack[i].a in g)
    && (forall i, j :: 0 <= i < j < |stack| ==> stack[i].a != stack[j].a)
  }

  lemma StackBounded(g: Graph, stack: seq<Pair>)
    requires StackIn(g, stack)
    ensures |stack| <= |g|
  {
    var objs := seq(|stack|, i requires 0 <= i < |stack| => stack[i].a);
    DistinctBounded(objs, g.Keys);
  }

  /** What `baseIsEqual(v, w)` returns below the given stack of pairs, in any order of properties. */
  ghost predicate EqualBelow(g: Graph, stack: seq<Pair>, v: Value, w: Value)
    requires Complete(g) && In(v, g) && In(w, g) && StackIn(g, stack)
    decreases |g| - |stack|
  {
    StackBounded(g, stack);
    if v == w then true
    else if v.Prim? || w.Prim? || g[v.o].isArray != g[w.o].isArray then false
    else if OnStack(stack, v.o) then Pair(v.o, w.o) in stack
    else
      var deeper := stack + [Pair(v.o, w.o)];
      StackBounded(g, deeper);
      && g[v.o].props.Keys == g[w.o].props.Keys
      && forall k :: k in g[v.o].props ==> EqualBelow(g, deeper, g[v.o].props[k], g[w.o].props[k])
  }

  // ----- the imperative comparison

  class EqualStacks {
    var objects: seq<Obj>
    var others: seq<Obj>

    constructor ()
      ensures objects == [] && others == []
    {
      objects, others := [], [];
    }

    ghost predicate Shows(stack: seq<Pair>)
      reads this
    {
      && |objects| == |others| == |stack|
      && forall i :: 0 <= i < |stack| ==> stack[i] == Pair(objects[i], others[i])
    }

    method Push(a: Obj, b: Obj, ghost stack: seq<Pair>)
      requires Shows(stack)
      modifies this
      ensures Shows(stack + [Pair(a, b)])
    {
      objects, others := objects + [a], others + [b];
    }

    method Pop(ghost stack: seq<Pair>)
      requires stack != [] && Shows(stack)
      modifies this
      ensures Shows(stack[..|stack| - 1])
    {
      objects, others := objects[..|objects| - 1], others[..|others| - 1];
    }
  }

  method BaseIsEqual(value: Value, other: Value, st: EqualStacks, ghost g: Graph, ghost stack: seq<Pair>)
    returns (r: bool)
    requires Shown(g) && In(value, g) && In(other, g) && StackIn(g, stack) && st.Shows(stack)
    modifies st
    ensures st.Shows(stack)
    ensures r == EqualBelow(g, stack, value, other)
    decreases |g| - |stack|, 1
  {
    if value.Ref? && other.Ref? {
      if value.o == other.o { return true; }
      r := BaseIsEqualDeep(value.o, other.o, st, g, stack);
    } else {
      // `===` on primitives, and two NaNs
      r := value == other;
    }
  }

  method BaseIsEqualDeep(node: Obj, other: Obj, st: EqualStacks, ghost g: Graph, ghost stack: seq<Pair>)
    returns (r: bool)
    requires Shown(g) && node in g && other in g && node != other && StackIn(g, stack) && st.Shows(stack)
    modifies st
    ensures st.Shows(stack)
    ensures r == EqualBelow(g, stack, Ref(node), Ref(other))
    decreases |g| - |stack|, 0
  {
    if node.isArray != other.isArray { return false; }
    var found := Search(node, st, stack);
    if found >= 0 {
      assert stack[found] == Pair(node, st.others[found]);
      return st.others[found] == other;
    }
    ghost var deeper := stack + [Pair(node, other)];
    st.Push(node, other, stack);
    StackBounded(g, deeper);
    r := EqualNodes(node, other, st, g, deeper);
    st.Pop(deeper);
    assert deeper[..|stack|] == stack;
  }

  /** The search for a circular reference, from the top of the stack. */
  method Search(node: Obj, st: EqualStacks, ghost stack: seq<Pair>) returns (found: int)
    requires st.Shows(stack)
    ensures -1 <= found < |stack|
    ensures found >= 0 ==> stack[found].a == node
    ensures found < 0 ==> !OnStack(stack, node)
  {
    found := |st.objects| - 1;
    while found >= 0 && st.objects[found] != node
      invariant -1 <= found < |stack|
      invariant forall i :: found < i < |stack| ==> stack[i].a != node
    {
      found := found - 1;
    }
  }

  /** `equalArrays` and `equalObjects`, with the pair itself on the stack. */
  method EqualNodes(a: Obj, b: Obj, st: EqualStacks, ghost g: Graph, ghost stack: seq<Pair>) returns (r: bool)
    requires Shown(g) && a in g && b in g && a.isArray == b.isArray && StackIn(g, stack) && st.Shows(stack)
    modifies st
    ensures st.Shows(stack)
    ensures r <==> a.props.Keys == b.props.Keys &&
                   forall k :: k in g[a].props ==> EqualBelow(g, stack, g[a].props[k], g[b].props[k])
    decreases |g| - |stack|, 3
  {
    if |a.order| != |b.order| {
      KeysDiffer(a, b);
      return false;
    }
    r := SameKeys(a, b);
    if r {
      r := EqualProperties(a, b, st, g, stack);
    }
  }

  lemma KeysDiffer(a: Obj, b: Obj)
    requires a.WellFormed() && b.WellFormed() && |a.order| != |b.order|
    ensures a.props.Keys != b.props.Keys
  {
    if a.props.Keys == b.props.Keys {
      DistinctBounded(a.order, b.props.Keys);
      DistinctBounded(b.order, a.props.Keys);
      DistinctCount(a.order, a.props.Keys);
      DistinctCount(b.order, b.props.Keys);
    }
  }

  lemma {:induction false} DistinctCount<T>(s: seq<T>, S: set<T>)
    requires Distinct(s) && forall x :: x in s <==> x in S
    ensures |s| == |S|
  {
    if s == [] {
      assert S == {};
    } else {
      var n := |s| - 1;
      assert s == s[..n] + [s[n]];
      DistinctCount(s[..n], S - {s[n]});
    }
  }

  /** The first loop of `equalObjects`; arrays of one length need none. */
  method SameKeys(a: Obj, b: Obj) returns (r: bool)
    requires a.WellFormed() && b.WellFormed() && |a.order| == |b.order| && a.isArray == b.isArray
    ensures r == (a.props.Keys == b.props.Keys)
  {
    DistinctCount(a.order, a.props.Keys);
    DistinctCount(b.order, b.props.Keys);
    var index := |a.order|;
    while index > 0
      invariant 0 <= index <= |a.order|
      invariant forall i :: index <= i < |a.order| ==> a.order[i] in b.props
    {
      index := index - 1;
      if a.order[index] !in b.props { return false; }
    }
    assert a.props.Keys <= b.props.Keys;
    SubsetFull(a.props.Keys, b.props.Keys);
    r := true;
  }

  lemma SubsetFull<T>(A: set<T>, B: set<T>)
    requires A <= B && |A| == |B|
    ensures A == B
  {
    assert B == A + (B - A);
  }

  /** The second loop of `equalObjects`, and the loop of `equalArrays`. */
  method EqualProperties(a: Obj, b: Obj, st: EqualStacks, ghost g: Graph, ghost stack: seq<Pair>) returns (r: bool)
    requires Shown(g) && a in g && b in g && a.props.Keys == b.props.Keys && StackIn(g, stack) && st.Shows(stack)
    modifies st
    ensures st.Shows(stack)
    ensures r == forall k :: k in g[a].props ==> EqualBelow(g, stack, g[a].props[k], g[b].props[k])
    decreases |g| - |stack|, 2
  {
    var keys := a.order;
    ghost var pa, pb := g[a].props, g[b].props;
    assert forall k :: k in keys <==> k in pa;
    for index := 0 to |keys|
      invariant st.Shows(stack)
      invariant forall i :: 0 <= i < index ==> EqualBelow(g, stack, pa[keys[i]], pb[keys[i]])
    {
      var key := keys[index];
      StackBounded(g, stack);
      var equal := BaseIsEqual(a.props[key], b.props[key], st, g, stack);
      if !equal { return false; }
    }
    r := true;
    forall k | k in pa ensures EqualBelow(g, stack, pa[k], pb[k]) {
      var i :| 0 <= i < |keys| && keys[i] == k;
    }
  }

  /** `_.isEqual` */
  method IsEqual(value: Value, other: Value, ghost g: Graph) returns (r: bool)
    requires Shown(g) && In(value, g) && In(other, g)
    ensures r == EqualBelow(g, [], value, other)
  {
    var st := new EqualStacks();
    r := BaseIsEqual(value, other, st, g, []);
  }

  // ----- a true answer comes with a bisimulation

  ghost predicate Agree(R: set<Pair>, v: Value, w: Value) {
    v == w || (v.Ref? && w.Ref? && Pair(v.o, w.o) in R)
  }

  /** The two nodes are of one kind, have the same keys, and agree key by key. */
  ghost predicate Matched(g: Graph, R: set<Pair>, p: Pair)
  {
    && p.a in g && p.b in g
    && g[p.a].isArray == g[p.b].isArray && g[p.a].props.Keys == g[p.b].props.Keys
    && forall k :: k in g[p.a].props ==> Agree(R, g[p.a].props[k], g[p.b].props[k])
  }

  ghost predicate Bisimulation(g: Graph, R: set<Pair>) {
    forall p :: p in R ==> Matched(g, R, p)
  }

  /** No path of keys tells `v` from `w`. */
  ghost predicate Bisimilar(g: Graph, v: Value, w: Value) {
    exists R :: R <= AllPairs(g) && Bisimulation(g, R) && Agree(R, v, w)
  }

  ghost function AllPairs(g: Graph): set<Pair> {
    set a, b | a in g && b in g :: Pair(a, b)
  }

  ghost function Pairs(stack: seq<Pair>): set<Pair> {
    set p | p in stack
  }

  lemma MatchedStays(g: Graph, R: set<Pair>, R': set<Pair>, p: Pair)
    requires Matched(g, R, p) && R <= R'
    ensures Matched(g, R', p)
  {
  }

  /** The pairs visited below `stack` agree key by key, up to pairs visited or still on the stack. */
  lemma {:induction false} VisitedPairs(g: Graph, stack: seq<Pair>, v: Value, w: Value) returns (R: set<Pair>)
    requires Complete(g) && In(v, g) && In(w, g) && StackIn(g, stack) && EqualBelow(g, stack, v, w)
    ensures Agree(R + Pairs(stack), v, w)
    ensures forall p :: p in R ==> Matched(g, R + Pairs(stack), p)
    decreases |g| - |stack|, 1
  {
    R := {};
    if v != w && !OnStack(stack, v.o) {
      var deeper := stack + [Pair(v.o, w.o)];
      StackBounded(g, deeper);
      var below := VisitedChildren(g, deeper, v.o, w.o);
      R := below + {Pair(v.o, w.o)};
      assert below + Pairs(deeper) == R + Pairs(stack);
    }
  }

  lemma {:induction false} VisitedChildren(g: Graph, stack: seq<Pair>, a: Obj, b: Obj) returns (R: set<Pair>)
    requires Complete(g) && a in g && b in g && g[a].props.Keys == g[b].props.Keys && StackIn(g, stack)
    requires forall k :: k in g[a].props ==> EqualBelow(g, stack, g[a].props[k], g[b].props[k])
    ensures forall k :: k in g[a].props ==> Agree(R + Pairs(stack), g[a].props[k], g[b].props[k])
    ensures forall p :: p in R ==> Matched(g, R + Pairs(stack), p)
    decreases |g| - |stack|, 2
  {
    R := {};
    var todo := g[a].props.Keys;
    while todo != {}
      invariant todo <= g[a].props.Keys
      invariant forall k :: k in g[a].props && k !in todo ==> Agree(R + Pairs(stack), g[a].props[k], g[b].props[k])
      invariant forall p :: p in R ==> Matched(g, R + Pairs(stack), p)
    {
      var k :| k in todo;
      var more := VisitedPairs(g, stack, g[a].props[k], g[b].props[k]);
      var union := R + more + Pairs(stack);
      forall p | p in R + more ensures Matched(g, union, p) {
        MatchedStays(g, if p in R then R + Pairs(stack) else more + Pairs(stack), union, p);
      }
      R := R + more;
      todo := todo - {k};
    }
  }

  /** Soundness on every finite graph, cyclic or not. */
  lemma EqualIsBisimilar(g: Graph, v: Value, w: Value)
    requires Complete(g) && In(v, g) && In(w, g) && EqualBelow(g, [], v, w)
    ensures Bisimilar(g, v, w)
  {
    var R := VisitedPairs(g, [], v, w);
    assert R + Pairs([]) == R;
    assert forall p :: p in R ==> p == Pair(p.a, p.b) && p in AllPairs(g);
  }

  // ----- when bisimilar values are found equal

  /** No node is matched with two different nodes. */
  ghost predicate Functional(R: set<Pair>) {
    forall p, q :: p in R && q in R && p.a == q.a ==> p == q
  }

  /** Values related by a functional bisimulation are found equal, also on cyclic graphs. */
  lemma {:induction false} FunctionalIsEqual(g: Graph, R: set<Pair>, stack: seq<Pair>, v: Value, w: Value)
    requires Complete(g) && In(v, g) && In(w, g) && StackIn(g, stack)
    requires Bisimulation(g, R) && Functional(R) && Agree(R, v, w) && Pairs(stack) <= R
    ensures EqualBelow(g, stack, v, w)
    decreases |g| - |stack|
  {
    if v != w {
      var pair := Pair(v.o, w.o);
      assert Matched(g, R, pair);
      if OnStack(stack, v.o) {
        var i :| 0 <= i < |stack| && stack[i].a == v.o;
        assert stack[i] in Pairs(stack);
      } else {
        var deeper := stack + [pair];
        StackBounded(g, deeper);
        forall k | k in g[v.o].props ensures EqualBelow(g, deeper, g[v.o].props[k], g[w.o].props[k]) {
          FunctionalIsEqual(g, R, deeper, g[v.o].props[k], g[w.o].props[k]);
        }
      }
    }
  }

  // ----- exactly when the answer is true

  /** The values under one key of the two nodes of `p` are the two different nodes of `q`. */
  ghost predicate ChildPair(g: Graph, p: Pair, q: Pair) {
    && p.a in g && p.b in g && q.a in g && q.b in g && q.a != q.b
    && exists k :: k in g[p.a].props && k in g[p.b].props && g[p.a].props[k] == Ref(q.a) && g[p.b].props[k] == Ref(q.b)
  }

  /** The pairs lie below each other, starting from `s`. */
  ghost predicate Below(g: Graph, s: Pair, path: seq<Pair>) {
    && path != [] && path[0] == s
    && (forall i :: 0 <= i < |path| ==> path[i].a in g && path[i].b in g)
    && forall i :: 0 <= i < |path| - 1 ==> ChildPair(g, path[i], path[i + 1])
  }

  /** The first node of `p` lies on the way down to `p`, with another partner. */
  ghost predicate Meets(g: Graph, s: Pair, older stack: seq<Pair>, older p: Pair) {
    && p.a in g && p.b in g && (forall i :: 0 <= i < |stack| ==> stack[i].b in g) && StackIn(g, stack)
    && Below(g, s, stack + [p]) && OnStack(stack, p.a) && p !in stack
  }

  /** Walking down from the two nodes of `s` at once, a node of the first value comes back on its own way with another
      partner. */
  ghost predicate MeetsAnother(g: Graph, s: Pair) {
    exists stack, p :: Meets(g, s, stack, p)
  }

  /** A true answer is true all the way down. */
  lemma {:induction false} TrueBelow(g: Graph, s: Pair, path: seq<Pair>, i: nat)
    requires Complete(g) && Below(g, s, path) && i < |path| && StackIn(g, path[..|path| - 1])
    requires s.a != s.b && EqualBelow(g, [], Ref(s.a), Ref(s.b))
    ensures StackIn(g, path[..i]) && path[i].a != path[i].b && path[i].a in g && path[i].b in g
    ensures EqualBelow(g, path[..i], Ref(path[i].a), Ref(path[i].b))
  {
    if i > 0 {
      TrueBelow(g, s, path, i - 1);
      var p, q := path[i - 1], path[i];
      assert ChildPair(g, p, q);
      assert path[..i] == path[..i - 1] + [p];
      assert !OnStack(path[..i - 1], p.a);
      StackBounded(g, path[..i]);
      var k :| k in g[p.a].props && k in g[p.b].props && g[p.a].props[k] == Ref(q.a) && g[p.b].props[k] == Ref(q.b);
      assert EqualBelow(g, path[..i], g[p.a].props[k], g[p.b].props[k]);
    }
  }

  /** If no node comes back with another partner, related values are found equal. */
  lemma {:induction false} RelatedIsEqual(g: Graph, R: set<Pair>, s: Pair, stack: seq<Pair>, v: Value, w: Value)
    requires Complete(g) && In(v, g) && In(w, g) && StackIn(g, stack)
    requires Bisimulation(g, R) && Agree(R, v, w) && !MeetsAnother(g, s)
    requires v != w ==> Below(g, s, stack + [Pair(v.o, w.o)])
    ensures EqualBelow(g, stack, v, w)
    decreases |g| - |stack|
  {
    if v != w {
      var pair := Pair(v.o, w.o);
      assert Matched(g, R, pair);
      if OnStack(stack, v.o) {
        assert forall i :: 0 <= i < |stack| ==> (stack + [pair])[i] == stack[i];
        assert !Meets(g, s, stack, pair);
      } else {
        var deeper := stack + [pair];
        StackBounded(g, deeper);
        forall k | k in g[v.o].props ensures EqualBelow(g, deeper, g[v.o].props[k], g[w.o].props[k]) {
          if g[v.o].props[k] != g[w.o].props[k] {
            assert ChildPair(g, pair, Pair(g[v.o].props[k].o, g[w.o].props[k].o));
          }
          RelatedIsEqual(g, R, s, deeper, g[v.o].props[k], g[w.o].props[k]);
        }
      }
    }
  }

  /** On every finite graph, cyclic or not, two values are found equal exactly when they are bisimilar and no node of
      the first comes back on its own way with another partner. */
  lemma EqualExact(g: Graph, v: Value, w: Value)
    requires Complete(g) && In(v, g) && In(w, g)
    ensures EqualBelow(g, [], v, w) <==>
            Bisimilar(g, v, w) && !(v.Ref? && w.Ref? && v != w && MeetsAnother(g, Pair(v.o, w.o)))
  {
    if EqualBelow(g, [], v, w) {
      EqualIsBisimilar(g, v, w);
      if v != w && v.Ref? && w.Ref? {
        forall stack, p ensures !Meets(g, Pair(v.o, w.o), stack, p) {
          if Meets(g, Pair(v.o, w.o), stack, p) {
            assert (stack + [p])[..|stack|] == stack;
            TrueBelow(g, Pair(v.o, w.o), stack + [p], |stack|);
            assert false;
          }
        }
      }
    } else if Bisimilar(g, v, w) && !(v.Ref? && w.Ref? && v != w && MeetsAnother(g, Pair(v.o, w.o))) {
      var R :| R <= AllPairs(g) && Bisimulation(g, R) && Agree(R, v, w);
      if v != w { RelatedIsEqual(g, R, Pair(v.o, w.o), [], v, w); }
    }
  }

  /** The graph has no cycles: the rank of a node exceeds those of its children. */
  ghost predicate Ranked(g: Graph, rank: map<Obj, nat>) {
    && rank.Keys == g.Keys
    && forall o, k :: o in g && k in g[o].props && g[o].props[k].Ref? && g[o].props[k].o in g ==>
         rank[g[o].props[k].o] < rank[o]
  }

  /** Structural equality by plain recursion. */
  ghost predicate Structural(g: Graph, rank: map<Obj, nat>, v: Value, w: Value)
    requires Complete(g) && Ranked(g, rank) && In(v, g) && In(w, g)
    decreases if v.Ref? then rank[v.o] else 0
  {
    if v.Prim? || w.Prim? then v == w
    else
      && g[v.o].isArray == g[w.o].isArray && g[v.o].props.Keys == g[w.o].props.Keys
      && forall k :: k in g[v.o].props ==>
           if g[v.o].props[k].Prim? then g[v.o].props[k] == g[w.o].props[k]
           else Structural(g, rank, g[v.o].props[k], g[w.o].props[k])
  }

  lemma {:induction false} StructuralReflexive(g: Graph, rank: map<Obj, nat>, v: Value)
    requires Complete(g) && Ranked(g, rank) && In(v, g)
    ensures Structural(g, rank, v, v)
    decreases if v.Ref? then rank[v.o] else 0
  {
    if v.Ref? {
      forall k | k in g[v.o].props && g[v.o].props[k].Ref?
        ensures Structural(g, rank, g[v.o].props[k], g[v.o].props[k])
      {
        StructuralReflexive(g, rank, g[v.o].props[k]);
      }
    }
  }

  /** On acyclic data the answer is structural equality, exactly. */
  lemma {:induction false} AcyclicIsStructural(g: Graph, rank: map<Obj, nat>, stack: seq<Pair>, v: Value, w: Value)
    requires Complete(g) && Ranked(g, rank) && In(v, g) && In(w, g) && StackIn(g, stack)
    requires forall i :: 0 <= i < |stack| && v.Ref? ==> rank[stack[i].a] > rank[v.o]
    ensures EqualBelow(g, stack, v, w) == Structural(g, rank, v, w)
    decreases |g| - |stack|
  {
    if v == w {
      StructuralReflexive(g, rank, v);
    } else if v.Ref? && w.Ref? {
      assert !OnStack(stack, v.o);
      var deeper := stack + [Pair(v.o, w.o)];
      StackBounded(g, deeper);
      if g[v.o].props.Keys == g[w.o].props.Keys {
        forall k | k in g[v.o].props
          ensures EqualBelow(g, deeper, g[v.o].props[k], g[w.o].props[k]) ==
                  Structural(g, rank, g[v.o].props[k], g[w.o].props[k])
        {
          AcyclicIsStructural(g, rank, deeper, g[v.o].props[k], g[w.o].props[k]);
        }
      }
    }
  }

  /** On cyclic data bisimilar values may be told apart: a node that is its own `next`, against the same cycle with
      one step unrolled in front. */
  lemma UnrolledCycleDiffers(g: Graph, next: Key, o: Obj, p: Obj, q: Obj)
    requires o != p && p != q && o != q
    requires g == map[o := Node(false, map[next := Ref(o)]), p := Node(false, map[next := Ref(q)]),
                      q := Node(false, map[next := Ref(q)])]
    ensures Complete(g) && Bisimilar(g, Ref(o), Ref(p)) && !EqualBelow(g, [], Ref(o), Ref(p))
  {
    var R := {Pair(o, p), Pair(o, q)};
    assert Matched(g, R, Pair(o, p)) && Matched(g, R, Pair(o, q));
    assert R <= AllPairs(g) && Bisimulation(g, R) && Agree(R, Ref(o), Ref(p));
    var deeper := [Pair(o, p)];
    assert [] + deeper == deeper;
    assert deeper[0].a == o && OnStack(deeper, o) && Pair(o, q) !in deeper;
    StackBounded(g, deeper);
    assert !EqualBelow(g, deeper, g[o].props[next], g[p].props[next]);
  }
}
