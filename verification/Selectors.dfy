/** Trees of nodes and what complex selectors mean on them, following section 8 of Selectors Level 3. */
module Selectors {
  import opened Options

  /** Nodes are numbered in document order, in which a parent and a previous sibling precede the node. */
  datatype Node = Node(parent: Option<nat>, prev: Option<nat>, isElement: bool)

  ghost predicate DocumentOrder(nodes: seq<Node>) {
    forall i :: 0 <= i < |nodes| ==>
      && (nodes[i].parent.Some? ==> nodes[i].parent.value < i)
      && (nodes[i].prev.Some? ==> nodes[i].prev.value < i)
  }

  type Tree = nodes: seq<Node> | DocumentOrder(nodes) witness []

  /** The context of a run: a node or a list of nodes, whether it is the outermost context, and the XML flag. */
  datatype Context = One(node: nat) | Many(nodes: seq<nat>)
  datatype Scope = Scope(context: Context, outermost: bool, xml: bool)

  /** The combinators: white space, `>`, `~` and `+`. */
  datatype Relation = Descendant | Child | Sibling | Adjacent

  /** A compound selector is a sequence of tests; combinators stand between compounds, or in front. */
  datatype Token = Filter(test: nat -> bool) | Relative(relation: Relation)

  /** `x` is reached from `e` by following parents. */
  ghost predicate Ancestor(tree: Tree, e: nat, x: nat)
    requires e < |tree|
    decreases e
  {
    tree[e].parent.Some? && (tree[e].parent.value == x || Ancestor(tree, tree[e].parent.value, x))
  }

  /** `x` is reached from `e` by following previous siblings. */
  ghost predicate Preceding(tree: Tree, e: nat, x: nat)
    requires e < |tree|
    decreases e
  {
    tree[e].prev.Some? && (tree[e].prev.value == x || Preceding(tree, tree[e].prev.value, x))
  }

  /** `x` stands in the relation to `e`. Only elements count, except that a context (`base`) may be any ancestor. */
  ghost predicate Related(tree: Tree, r: Relation, base: bool, e: nat, x: nat)
    requires e < |tree|
  {
    x < |tree| &&
    match r
    case Descendant => Ancestor(tree, e, x) && (base || tree[x].isElement)
    case Child =>
      && Ancestor(tree, e, x) && (base || tree[x].isElement)
      && forall y: nat :: y < |tree| && Ancestor(tree, e, y) && Ancestor(tree, y, x) ==> !base && !tree[y].isElement
    case Sibling => Preceding(tree, e, x) && tree[x].isElement
    case Adjacent =>
      && Preceding(tree, e, x) && tree[x].isElement
      && forall y: nat :: y < |tree| && Preceding(tree, e, y) && Preceding(tree, y, x) ==> !tree[y].isElement
  }

  ghost predicate InContext(scope: Scope, e: nat) {
    match scope.context
    case One(n) => n == e
    case Many(ns) => e in ns
  }

  /** Element `e` is a subject of the first `n` tokens, relative to the scope. */
  ghost predicate Means(tree: Tree, scope: Scope, tokens: seq<Token>, n: nat, e: nat)
    requires e < |tree| && n <= |tokens|
    decreases n
  {
    if n == 0 then
      scope.xml || !scope.outermost || exists x :: Related(tree, Descendant, true, e, x) && InContext(scope, x)
    else
      match tokens[n - 1]
      case Filter(test) => test(e) && Means(tree, scope, tokens, n - 1, e)
      case Relative(r) =>
        if n == 1 then exists x :: Related(tree, r, true, e, x) && InContext(scope, x)
        else exists x :: Related(tree, r, false, e, x) && Means(tree, scope, tokens, n - 1, x)
  }

  ghost predicate InTree(tree: Tree, elems: seq<nat>) {
    forall i :: 0 <= i < |elems| ==> elems[i] < |tree|
  }

  /** The elements that are subjects of some group of the selector, in order. */
  ghost function Subjects(tree: Tree, scope: Scope, groups: seq<seq<Token>>, elems: seq<nat>): seq<nat>
    requires InTree(tree, elems)
    requires forall g :: 0 <= g < |groups| ==> |groups[g]| > 0
  {
    if elems == [] then []
    else
      var n := |elems| - 1;
      Subjects(tree, scope, groups, elems[..n])
      + if exists g :: 0 <= g < |groups| && Means(tree, scope, groups[g], |groups[g]|, elems[n]) then [elems[n]] else []
  }
}
