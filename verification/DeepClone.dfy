/** lodash's `baseClone` on plain objects and arrays: a deep copy that follows shared and circular references
    through a pair of parallel stacks. */
module DeepClone {
  import opened ObjectGraph
  import opened Options

  /** The stacks `stackA` (traversed sources) and `stackB` (their clones); they only grow. */
  class Stacks {
    var sources: seq<Obj>
    var clones: seq<Obj>

    constructor ()
      ensures sources == [] && clones == []
    {
      sources, clones := [], [];
    }

    ghost predicate Paired(S: set<Obj>)
      reads this
    {
      && |sources| == |clones|
      && Distinct(sources) && Distinct(clones)
      && (forall i :: 0 <= i < |sources| ==> sources[i] in S && clones[i] !in S)
    }

    /** Both stacks grow by one. */
    method Push(source: Obj, clone: Obj, ghost S: set<Obj>)
      requires Paired(S) && source in S && source !in sources && clone !in S && clone !in clones
      modifies this
      ensures Paired(S) && sources == old(sources) + [source] && clones == old(clones) + [clone]
    {
      sources, clones := sources + [source], clones + [clone];
    }
  }

  /** `w` is the image of `v` under the pairing of the two stacks. */
  ghost predicate Image(sources: seq<Obj>, clones: seq<Obj>, v: Value, w: Value)
    requires |sources| == |clones|
  {
    match v
    case Prim(_) => w == v
    case Ref(o) => w.Ref? && exists i :: 0 <= i < |sources| && sources[i] == o && clones[i] == w.o
  }

  /** Node `b` carries, key by key and in the same order, the images of what node `a` carries. */
  ghost predicate Copied(sources: seq<Obj>, clones: seq<Obj>, a: Obj, b: Obj)
    requires |sources| == |clones|
    reads a, b
  {
    && a.isArray == b.isArray && a.order == b.order && a.props.Keys == b.props.Keys
    && forall k :: k in a.props ==> Image(sources, clones, a.props[k], b.props[k])
  }

  /** All pairs from position `n` on are finished copies. */
  ghost predicate CopiedFrom(sources: seq<Obj>, clones: seq<Obj>, n: nat)
    requires |sources| == |clones|
    reads sources, set i | n <= i < |clones| :: clones[i]
  {
    forall i :: n <= i < |sources| ==> Copied(sources, clones, sources[i], clones[i])
  }

  lemma CopiedFromStays(sources: seq<Obj>, clones: seq<Obj>, sources': seq<Obj>, clones': seq<Obj>, n: nat)
    requires |sources| == |clones| && |sources'| == |clones'| && sources <= sources' && clones <= clones'
    requires CopiedFrom(sources, clones, n) && CopiedFrom(sources', clones', |sources|)
    ensures CopiedFrom(sources', clones', n)
  {
  }

  /** The entries from position `n` on lie in every closed part of the graph that contains `v`. */
  ghost predicate ReachableFrom(S: set<Obj>, v: Value, sources: seq<Obj>, n: nat)
    reads S
  {
    forall C :: C <= S && Closed(C) && Within(v, C) ==> forall i :: n <= i < |sources| ==> sources[i] in C
  }

  lemma ReachableExtends(S: set<Obj>, source: Obj, key: Key, sources: seq<Obj>, sources': seq<Obj>, n: nat)
    requires Closed(S) && source in S && key in source.props && sources <= sources'
    requires ReachableFrom(S, Ref(source), sources, n) && ReachableFrom(S, source.props[key], sources', |sources|)
    ensures ReachableFrom(S, Ref(source), sources', n)
  {
  }

  /** The first `i` keys of a source have been cloned into a result with keys `order'` and contents `props'`. */
  ghost predicate Filled(isArray: bool, order: seq<Key>, props: map<Key, Value>, order': seq<Key>,
                         props': map<Key, Value>,
                         i: nat, sources: seq<Obj>, clones: seq<Obj>)
    requires |sources| == |clones| && i <= |order| && forall k :: k in order ==> k in props
  {
    && order' == (if isArray then order else order[..i])
    && (forall k :: k in props' <==> k in order')
    && forall j :: 0 <= j < i ==> order[j] in props' && Image(sources, clones, props[order[j]], props'[order[j]])
  }

  lemma FilledStays(isArray: bool, order: seq<Key>, props: map<Key, Value>, order': seq<Key>, props': map<Key, Value>,
                    i: nat, sources: seq<Obj>, clones: seq<Obj>, sources': seq<Obj>, clones': seq<Obj>)
    requires |sources| == |clones| && i <= |order| && forall k :: k in order ==> k in props
    requires |sources'| == |clones'| && sources <= sources' && clones <= clones'
    requires Filled(isArray, order, props, order', props', i, sources, clones)
    ensures Filled(isArray, order, props, order', props', i, sources', clones')
  {
  }

  lemma FilledStep(isArray: bool, order: seq<Key>, props: map<Key, Value>, order': seq<Key>, props': map<Key, Value>,
                   i: nat, sources: seq<Obj>, clones: seq<Obj>, sub: Value)
    requires |sources| == |clones| && i < |order| && Distinct(order) && forall k :: k in order ==> k in props
    requires Filled(isArray, order, props, order', props', i, sources, clones)
    requires Image(sources, clones, props[order[i]], sub)
    ensures order[i] in order' <==> isArray
    ensures Filled(isArray, order, props, if isArray then order' else order' + [order[i]], props'[order[i] := sub],
                   i + 1, sources, clones)
  {
  }

  /** The search for a circular reference, from the top of the stack. */
  method Search(st: Stacks, source: Obj) returns (found: int)
    ensures -1 <= found < |st.sources|
    ensures found >= 0 ==> st.sources[found] == source
    ensures found < 0 ==> source !in st.sources
  {
    found := |st.sources| - 1;
    while found >= 0 && st.sources[found] != source
      invariant -1 <= found < |st.sources|
      invariant forall i :: found < i < |st.sources| ==> st.sources[i] != source
    {
      found := found - 1;
    }
  }

  method BaseClone(value: Value, st: Stacks, ghost S: set<Obj>) returns (r: Value)
    requires Closed(S) && Within(value, S) && st.Paired(S)
    modifies st
    ensures st.Paired(S) && old(st.sources) <= st.sources && old(st.clones) <= st.clones
    ensures forall i :: |old(st.sources)| <= i < |st.sources| ==> fresh(st.clones[i])
    ensures CopiedFrom(st.sources, st.clones, |old(st.sources)|)
    ensures Image(st.sources, st.clones, value, r)
    ensures ReachableFrom(S, value, st.sources, |old(st.sources)|)
    decreases |S| - |st.sources|, 1
  {
    if value.Prim? { return value; }
    var found := Search(st, value.o);
    if found >= 0 { return Ref(st.clones[found]); }
    r := CloneNode(value.o, st, S);
  }

  /** The rest of `baseClone`, for a node that is not on the stack. */
  method CloneNode(source: Obj, st: Stacks, ghost S: set<Obj>) returns (r: Value)
    requires Closed(S) && source in S && st.Paired(S) && source !in st.sources
    modifies st
    ensures st.Paired(S) && old(st.sources) <= st.sources && old(st.clones) <= st.clones
    ensures forall i :: |old(st.sources)| <= i < |st.sources| ==> fresh(st.clones[i])
    ensures CopiedFrom(st.sources, st.clones, |old(st.sources)|)
    ensures Image(st.sources, st.clones, Ref(source), r)
    ensures ReachableFrom(S, Ref(source), st.sources, |old(st.sources)|)
    decreases |S| - |st.sources|, 0
  {
    var result := new Obj(source.isArray, |source.order|);
    ghost var n := |st.sources|;
    st.Push(source, result, S);
    DistinctBounded(st.sources, S);
    Populate(source, result, st, S);
    r := Ref(result);
    assert st.sources[n] == source && st.clones[n] == result;
  }

  /** One property of the source whose entry is at position `n - 1`. */
  method CloneProperty(source: Obj, key: Key, st: Stacks, ghost S: set<Obj>, ghost n: nat) returns (sub: Value)
    requires Closed(S) && source in S && key in source.props && st.Paired(S) && 0 < n <= |st.sources|
    requires CopiedFrom(st.sources, st.clones, n) && ReachableFrom(S, Ref(source), st.sources, n - 1)
    modifies st
    ensures st.Paired(S) && old(st.sources) <= st.sources && old(st.clones) <= st.clones
    ensures forall i :: |old(st.sources)| <= i < |st.sources| ==> fresh(st.clones[i])
    ensures CopiedFrom(st.sources, st.clones, n) && ReachableFrom(S, Ref(source), st.sources, n - 1)
    ensures Image(st.sources, st.clones, source.props[key], sub)
    decreases |S| - |st.sources|, 2
  {
    ghost var sources, clones := st.sources, st.clones;
    DistinctBounded(sources, S);
    sub := BaseClone(source.props[key], st, S);
    CopiedFromStays(sources, clones, st.sources, st.clones, n);
    ReachableExtends(S, source, key, sources, st.sources, n - 1);
  }

  /** `source` and its clone `result` are the pair at position `n - 1`; the pairs behind it are finished. */
  ghost predicate Under(source: Obj, result: Obj, st: Stacks, S: set<Obj>, n: nat)
    reads S, st, set i | n <= i < |st.clones| :: st.clones[i]
  {
    && Closed(S) && source in S && result !in S && st.Paired(S)
    && 0 < n <= |st.sources| && st.sources[n - 1] == source && st.clones[n - 1] == result
    && CopiedFrom(st.sources, st.clones, n)
    && ReachableFrom(S, Ref(source), st.sources, n - 1)
  }

  /** The clone has its first `i` properties. */
  ghost predicate Filling(source: Obj, result: Obj, i: nat, st: Stacks, S: set<Obj>, n: nat)
    reads S, source, result, st, st.sources, st.clones
  {
    && Under(source, result, st, S, n) && i <= |source.order|
    && Filled(source.isArray, source.order, source.props, result.order, result.props, i, st.sources, st.clones)
  }

  /** One round of the loop that fills a clone. */
  method FillProperty(source: Obj, result: Obj, i: nat, st: Stacks, ghost S: set<Obj>, ghost n: nat)
    requires Filling(source, result, i, st, S, n) && i < |source.order|
    modifies st, result
    ensures Filling(source, result, i + 1, st, S, n)
    ensures old(st.sources) <= st.sources && old(st.clones) <= st.clones
    ensures forall j :: |old(st.sources)| <= j < |st.sources| ==> fresh(st.clones[j])
    decreases |S| - |st.sources|, 3
  {
    var key := source.order[i];
    ghost var sources, clones := st.sources, st.clones;
    DistinctBounded(sources, S);
    var sub := CloneProperty(source, key, st, S, n);
    FilledStays(source.isArray, source.order, source.props, result.order, result.props, i,
                sources, clones, st.sources, st.clones);
    assert result !in (set j | n <= j < |st.clones| :: st.clones[j]);
    assert Under(source, result, st, S, n);
    AssignProperty(source, result, i, sub, st.sources, st.clones);
  }

  /** `result[key] = ...` */
  method AssignProperty(source: Obj, result: Obj, i: nat, sub: Value, ghost sources: seq<Obj>, ghost clones: seq<Obj>)
    requires |sources| == |clones| && source != result && i < |source.order| && source.WellFormed()
    requires Filled(source.isArray, source.order, source.props, result.order, result.props, i, sources, clones)
    requires Image(sources, clones, source.props[source.order[i]], sub)
    modifies result
    ensures Filled(source.isArray, source.order, source.props, result.order, result.props, i + 1, sources, clones)
  {
    FilledStep(source.isArray, source.order, source.props, result.order, result.props, i, sources, clones, sub);
    result.Assign(source.order[i], sub);
  }

  /** The loop that fills the clone of the source on top of the stack. */
  method Populate(source: Obj, result: Obj, st: Stacks, ghost S: set<Obj>)
    requires Filling(source, result, 0, st, S, |st.sources|) && result.isArray == source.isArray
    modifies st, result
    ensures st.Paired(S) && old(st.sources) <= st.sources && old(st.clones) <= st.clones
    ensures forall i :: |old(st.sources)| <= i < |st.sources| ==> fresh(st.clones[i])
    ensures CopiedFrom(st.sources, st.clones, |old(st.sources)| - 1)
    ensures ReachableFrom(S, Ref(source), st.sources, |old(st.sources)| - 1)
    decreases |S| - |st.sources|, 4
  {
    ghost var n := |st.sources|;
    var i := 0;
    while i < |source.order|
      invariant i <= |source.order| && Filling(source, result, i, st, S, n)
      invariant old(st.sources) <= st.sources && old(st.clones) <= st.clones
      invariant forall j :: n <= j < |st.sources| ==> fresh(st.clones[j])
    {
      DistinctBounded(st.sources, S);
      FillProperty(source, result, i, st, S, n);
      i := i + 1;
    }
    FilledCopied(source, result, st.sources, st.clones);
  }

  lemma FilledCopied(source: Obj, result: Obj, sources: seq<Obj>, clones: seq<Obj>)
    requires |sources| == |clones| && source.WellFormed() && source.isArray == result.isArray
    requires Filled(source.isArray, source.order, source.props, result.order, result.props, |source.order|,
                    sources, clones)
    ensures Copied(sources, clones, source, result)
  {
  }

  // ----- the deep clone of a whole value

  /** The pairs (`part[i]`, `image[i]`) are an isomorphism of the nodes `part` onto the nodes `image`. */
  ghost predicate Isomorphism(part: seq<Obj>, image: seq<Obj>)
    reads part, image
  {
    && |part| == |image| && Distinct(part) && Distinct(image)
    && CopiedFrom(part, image, 0)
  }

  ghost function Nodes(s: seq<Obj>): set<Obj> {
    set o | o in s
  }

  /** `_.cloneDeep`: whatever closed graph `S` the value lives in, the result is a fresh copy of exactly the part
      of it that the value reaches. */
  method CloneDeep(value: Value, ghost S: set<Obj>) returns (r: Value, ghost part: seq<Obj>, ghost image: seq<Obj>)
    requires Closed(S) && Within(value, S)
    ensures Isomorphism(part, image) && Image(part, image, value, r)
    ensures fresh(Nodes(image))
    ensures Nodes(part) <= S && Within(value, Nodes(part)) && Closed(Nodes(part))
    ensures forall C :: C <= S && Closed(C) && Within(value, C) ==> Nodes(part) <= C
  {
    var st := new Stacks();
    r := BaseClone(value, st, S);
    part, image := st.sources, st.clones;
    PartClosed(part, image, S);
  }

  lemma PartClosed(part: seq<Obj>, image: seq<Obj>, S: set<Obj>)
    requires |part| == |image| && CopiedFrom(part, image, 0) && Closed(S) && Nodes(part) <= S
    ensures Closed(Nodes(part))
  {
  }

  /** The copy is closed as well: nothing in it leads back to the source. */
  lemma ImageClosed(part: seq<Obj>, image: seq<Obj>, v: Value, w: Value)
    requires Isomorphism(part, image) && Image(part, image, v, w) && Closed(Nodes(part))
    ensures Closed(Nodes(image)) && Within(w, Nodes(image))
  {
    forall o | o in Nodes(image)
      ensures o.WellFormed()
      ensures forall k :: k in o.props && o.props[k].Ref? ==> o.props[k].o in Nodes(image)
    {
      var i :| 0 <= i < |image| && image[i] == o;
      assert Copied(part, image, part[i], o) && part[i] in Nodes(part);
    }
  }

  /** Two places of the source hold the same value exactly when the two places of the copy do. */
  lemma SharingPreserved(part: seq<Obj>, image: seq<Obj>, v: Value, w: Value, v': Value, w': Value)
    requires Isomorphism(part, image)
    requires Image(part, image, v, w) && Image(part, image, v', w')
    ensures v == v' <==> w == w'
  {
  }

  /** What a path of property names leads to. */
  ghost function Follow(S: set<Obj>, v: Value, path: seq<Key>): Option<Value>
    requires Closed(S) && Within(v, S)
    reads S
    decreases |path|
  {
    if path == [] then Some(v)
    else if v.Prim? || path[0] !in v.o.props then None
    else Follow(S, v.o.props[path[0]], path[1..])
  }

  lemma ChildImages(part: seq<Obj>, image: seq<Obj>, v: Obj, w: Obj)
    requires Isomorphism(part, image) && Image(part, image, Ref(v), Ref(w))
    ensures v in Nodes(part) && w in Nodes(image) && v.props.Keys == w.props.Keys
    ensures forall k :: k in v.props ==> Image(part, image, v.props[k], w.props[k])
  {
  }

  /** Every path leads to the same primitive in the copy and in the source, or to corresponding nodes, or nowhere. */
  lemma {:induction false} PathsAgree(part: seq<Obj>, image: seq<Obj>, v: Value, w: Value, path: seq<Key>)
    requires Isomorphism(part, image) && Image(part, image, v, w) && Closed(Nodes(part)) && Closed(Nodes(image))
    ensures var a, b := Follow(Nodes(part), v, path), Follow(Nodes(image), w, path);
            a.Some? == b.Some? && (a.Some? ==> Image(part, image, a.value, b.value))
    decreases |path|
  {
    if path == [] || v.Prim? {
    } else {
      var key, rest := path[0], path[1..];
      ChildImages(part, image, v.o, w.o);
      assert Follow(Nodes(part), v, path) ==
             if key in v.o.props then Follow(Nodes(part), v.o.props[key], rest) else None;
      assert Follow(Nodes(image), w, path) ==
             if key in w.o.props then Follow(Nodes(image), w.o.props[key], rest) else None;
      if key in v.o.props {
        PathsAgree(part, image, v.o.props[key], w.o.props[key], rest);
      }
    }
  }
}
