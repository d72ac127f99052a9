/** Sizzle's compiled selector matchers: right-to-left matching in which the descendant and general-sibling
    combinators memoise their answers on the nodes they walk over. */
module Sizzle {
  import opened Options
  import opened Selectors

  datatype Dir = ParentNode | PreviousSibling

  /** An entry of `Expr.relative`. */
  datatype Combinator = Combinator(dir: Dir, first: bool)

  /** `Expr.relative` */
  function CombinatorOf(r: Relation): Combinator {
    match r
    case Child => Combinator(ParentNode, true)
    case Descendant => Combinator(ParentNode, false)
    case Adjacent => Combinator(PreviousSibling, true)
    case Sibling => Combinator(PreviousSibling, false)
  }

  datatype Matcher =
    | Test(test: nat -> bool)
    | IsContext
    | AmongContexts
    | ContextGuard(leading: bool, viaOne: Matcher, viaMany: Matcher)
    | Combine(inner: Matcher, comb: Combinator, base: bool, name: nat)
    | All(matchers: seq<Matcher>)

  function Next(tree: Tree, dir: Dir, e: nat): (r: Option<nat>)
    requires e < |tree|
    ensures r.Some? ==> r.value < e
  {
    match dir
    case ParentNode => tree[e].parent
    case PreviousSibling => tree[e].prev
  }

  predicate Eligible(tree: Tree, c: Combinator, base: bool, e: nat)
    requires e < |tree|
  {
    tree[e].isElement || (base && c.dir == ParentNode)
  }

  // ----- the uncached recursive walk

  predicate Eval(tree: Tree, scope: Scope, m: Matcher, e: nat)
    requires e < |tree|
    decreases m, e, 1
  {
    match m
    case Test(test) => test(e)
    case IsContext => scope.context == One(e)
    case AmongContexts => scope.context.Many? && e in scope.context.nodes
    case ContextGuard(leading, viaOne, viaMany) =>
      || (!leading && (scope.xml || !scope.outermost))
      || (if scope.context.One? then Eval(tree, scope, viaOne, e) else Eval(tree, scope, viaMany, e))
    case Combine(_, _, _, _) => Walk(tree, scope, m, e)
    case All(ms) => forall i :: 0 <= i < |ms| ==> Eval(tree, scope, ms[i], e)
  }

  /** Does the combinator `m` succeed somewhere strictly beyond `e`? */
  predicate Walk(tree: Tree, scope: Scope, m: Matcher, e: nat)
    requires e < |tree| && m.Combine?
    decreases m, e, 0
  {
    var next := Next(tree, m.comb.dir, e);
    if next.None? then false
    else if !Eligible(tree, m.comb, m.base, next.value) then Walk(tree, scope, m, next.value)
    else Eval(tree, scope, m.inner, next.value) || (!m.comb.first && Walk(tree, scope, m, next.value))
  }

  /** What a cache entry of `m` on node `e` has to say. */
  ghost predicate FromHere(tree: Tree, scope: Scope, m: Matcher, e: nat)
    requires e < |tree| && m.Combine?
  {
    Eval(tree, scope, m.inner, e) || Walk(tree, scope, m, e)
  }

  // ----- the nodes a walk comes to

  ghost predicate OnAxis(tree: Tree, dir: Dir, e: nat, x: nat)
    requires e < |tree|
    decreases e
  {
    var next := Next(tree, dir, e);
    next.Some? && (next.value == x || OnAxis(tree, dir, next.value, x))
  }

  /** The walk of `c` from `e` asks about `x`; with a `first` combinator that is only the closest eligible node. */
  ghost predicate Reached(tree: Tree, c: Combinator, base: bool, e: nat, x: nat)
    requires e < |tree|
  {
    && x < |tree|
    && OnAxis(tree, c.dir, e, x)
    && Eligible(tree, c, base, x)
    && (c.first ==> forall y: nat :: y < |tree| && OnAxis(tree, c.dir, e, y) && OnAxis(tree, c.dir, y, x) ==>
                      !Eligible(tree, c, base, y))
  }

  lemma OnAxisBelow(tree: Tree, dir: Dir, e: nat, x: nat)
    requires e < |tree| && OnAxis(tree, dir, e, x)
    ensures x < e
  {
  }

  /** The walk succeeds exactly when some node it reaches satisfies the inner matcher. */
  lemma {:induction false} WalkIsReached(tree: Tree, scope: Scope, m: Matcher, e: nat)
    requires e < |tree| && m.Combine?
    ensures Walk(tree, scope, m, e) <==>
            exists x :: Reached(tree, m.comb, m.base, e, x) && Eval(tree, scope, m.inner, x)
    decreases e
  {
    var next := Next(tree, m.comb.dir, e);
    if next.Some? {
      var y := next.value;
      WalkIsReached(tree, scope, m, y);
      forall x: nat | x < |tree| && OnAxis(tree, m.comb.dir, y, x) ensures x < y {
        OnAxisBelow(tree, m.comb.dir, y, x);
      }
      ReachedStep(tree, m.comb, m.base, e, y);
      if Eligible(tree, m.comb, m.base, y) && Eval(tree, scope, m.inner, y) {
        assert Reached(tree, m.comb, m.base, e, y);
      }
    }
  }

  /** The nodes reached from `e` in terms of those reached from its neighbour `y`. */
  lemma ReachedStep(tree: Tree, c: Combinator, base: bool, e: nat, y: nat)
    requires e < |tree| && Next(tree, c.dir, e) == Some(y)
    ensures Eligible(tree, c, base, y) ==> Reached(tree, c, base, e, y)
    ensures forall x :: x != y && !(c.first && Eligible(tree, c, base, y)) ==>
              (Reached(tree, c, base, e, x) <==> Reached(tree, c, base, y, x))
    ensures c.first && Eligible(tree, c, base, y) ==> forall x :: Reached(tree, c, base, e, x) ==> x == y
    ensures !Eligible(tree, c, base, y) ==> !Reached(tree, c, base, e, y)
    ensures !Reached(tree, c, base, y, y)
  {
    forall a: nat, b: nat | a < |tree| && OnAxis(tree, c.dir, a, b) ensures b < a {
      OnAxisBelow(tree, c.dir, a, b);
    }
  }

  lemma {:induction false} AxisOf(tree: Tree, e: nat, x: nat)
    requires e < |tree|
    ensures OnAxis(tree, ParentNode, e, x) <==> Ancestor(tree, e, x)
    ensures OnAxis(tree, PreviousSibling, e, x) <==> Preceding(tree, e, x)
    decreases e
  {
    if tree[e].parent.Some? { AxisOf(tree, tree[e].parent.value, x); }
    if tree[e].prev.Some? { AxisOf(tree, tree[e].prev.value, x); }
  }

  /** The walks of the four combinators reach exactly the nodes in the relation. */
  lemma ReachedIsRelated(tree: Tree, r: Relation, base: bool, e: nat, x: nat)
    requires e < |tree|
    ensures Reached(tree, CombinatorOf(r), base, e, x) <==> Related(tree, r, base, e, x)
  {
    forall a: nat, b: nat | a < |tree|
      ensures OnAxis(tree, ParentNode, a, b) <==> Ancestor(tree, a, b)
      ensures OnAxis(tree, PreviousSibling, a, b) <==> Preceding(tree, a, b)
    {
      AxisOf(tree, a, b);
    }
  }

  /** The walk of a combinator succeeds exactly when some node in its relation satisfies the inner matcher. */
  lemma WalkIsRelated(tree: Tree, scope: Scope, m: Matcher, r: Relation, e: nat)
    requires e < |tree| && m.Combine? && m.comb == CombinatorOf(r)
    ensures Walk(tree, scope, m, e) <==>
            exists x :: Related(tree, r, m.base, e, x) && Eval(tree, scope, m.inner, x)
  {
    WalkIsReached(tree, scope, m, e);
    forall x: nat ensures Reached(tree, m.comb, m.base, e, x) <==> Related(tree, r, m.base, e, x) {
      ReachedIsRelated(tree, r, m.base, e, x);
    }
  }

  predicate Leading(tokens: seq<Token>) {
    |tokens| > 0 && tokens[0].Relative?
  }

  function Start(tokens: seq<Token>): (s: nat) {
    if Leading(tokens) then 1 else 0
  }

  // ----- the memoising engine

  /** The array `newCache`: one object is shared by all nodes of a walk, so its result reaches all of them. */
  class CacheEntry {
    const run: nat
    const name: nat
    var result: bool

    constructor (run: nat, name: nat)
      ensures this.run == run && this.name == name && !result
    {
      this.run, this.name, this.result := run, name, false;
    }
  }

  type Registry = map<nat, Matcher>

  /** Every combinator inside `m` is registered under its own name, names growing from the inside out. */
  ghost predicate Registered(m: Matcher, bound: nat, reg: Registry) {
    match m
    case Combine(inner, _, _, name) => name < bound && name in reg && reg[name] == m && Registered(inner, name, reg)
    case All(ms) => forall i :: 0 <= i < |ms| ==> Registered(ms[i], bound, reg)
    case ContextGuard(_, a, b) => Registered(a, bound, reg) && Registered(b, bound, reg)
    case _ => true
  }

  type Cache = map<(nat, Dir), CacheEntry>

  /** What one match may do to the cache: it keeps entries or puts ones with names below `bound`. */
  ghost predicate Kept(was: Cache, now: Cache, bound: nat) {
    forall k :: k in now ==> (k in was && now[k] == was[k]) || now[k].name < bound
  }

  class Engine {
    const tree: Tree
    var cache: Cache
    var dirruns: nat
    var done: nat
    ghost var registry: Registry

    constructor (tree: Tree)
      ensures this.tree == tree && cache == map[] && dirruns == 0 && done == 0 && registry == map[]
      ensures Valid()
    {
      this.tree, cache, dirruns, done, registry := tree, map[], 0, 0, map[];
    }

    /** No entry is from a later run, and registered names are below the counter that issues them. */
    ghost predicate Valid()
      reads this
    {
      && (forall k :: k in cache ==> cache[k].run <= dirruns && k.0 < |tree|)
      && (forall n :: n in registry ==> n < done && registry[n].Combine? && registry[n].name == n)
    }

    /** The entry of this run under key `k`, if its name is below `bound`, tells the truth about node `k.0`. */
    ghost predicate Truthful(scope: Scope, bound: nat, k: (nat, Dir), entry: CacheEntry)
      reads this, entry
    {
      k.0 < |tree| && entry.run == dirruns && entry.name < bound
      && entry.name in registry && registry[entry.name].Combine?
      ==> entry.result == FromHere(tree, scope, registry[entry.name], k.0)
    }

    ghost predicate Coherent(scope: Scope, bound: nat)
      reads this, cache.Values
    {
      forall k :: k in cache ==> Truthful(scope, bound, k, cache[k])
    }

    /** The compiled function of `m`: it answers as the uncached walk does, and leaves a truthful cache. */
    method Match(m: Matcher, e: nat, scope: Scope, ghost bound: nat) returns (b: bool)
      requires Valid() && e < |tree| && Registered(m, bound, registry) && Coherent(scope, bound)
      modifies this`cache
      ensures Valid() && Coherent(scope, bound) && Kept(old(cache), cache, bound)
      ensures b == Eval(tree, scope, m, e)
      decreases m, 2
    {
      match m
      case Test(test) => b := test(e);
      case IsContext => b := scope.context == One(e);
      case AmongContexts => b := scope.context.Many? && e in scope.context.nodes;
      case ContextGuard(leading, viaOne, viaMany) =>
        if !leading && (scope.xml || !scope.outermost) {
          b := true;
        } else if scope.context.One? {
          b := Match(viaOne, e, scope, bound);
        } else {
          b := Match(viaMany, e, scope, bound);
        }
      case Combine(_, comb, _, _) =>
        if comb.first {
          b := MatchClosest(m, e, scope, bound);
        } else if scope.xml {
          b := MatchUncached(m, e, scope, bound);
        } else {
          b := MatchCached(m, e, scope, bound);
        }
      case All(ms) =>
        var i := |ms|;
        while i > 0
          invariant 0 <= i <= |ms|
          invariant Valid() && Coherent(scope, bound) && Kept(old(cache), cache, bound)
          invariant forall j :: i <= j < |ms| ==> Eval(tree, scope, ms[j], e)
        {
          i := i - 1;
          b := Match(ms[i], e, scope, bound);
          if !b { return; }
        }
        b := true;
    }

    /** Closest ancestor or preceding element only. */
    method MatchClosest(m: Matcher, e: nat, scope: Scope, ghost bound: nat) returns (b: bool)
      requires Valid() && e < |tree| && m.Combine? && m.comb.first
      requires Registered(m, bound, registry) && Coherent(scope, bound)
      modifies this`cache
      ensures Valid() && Coherent(scope, bound) && Kept(old(cache), cache, bound)
      ensures b == Walk(tree, scope, m, e)
      decreases m, 0
    {
      var cur: nat := e;
      var next := Next(tree, m.comb.dir, cur);
      while next.Some?
        invariant cur < |tree| && next == Next(tree, m.comb.dir, cur)
        invariant Walk(tree, scope, m, e) == Walk(tree, scope, m, cur)
        invariant cache == old(cache)
        decreases cur
      {
        cur := next.value;
        if Eligible(tree, m.comb, m.base, cur) {
          b := Nested(m, cur, scope, bound);
          return;
        }
        next := Next(tree, m.comb.dir, cur);
      }
      b := false;
    }

    /** All ancestors or preceding elements, without the cache (XML documents). */
    method MatchUncached(m: Matcher, e: nat, scope: Scope, ghost bound: nat) returns (b: bool)
      requires Valid() && e < |tree| && m.Combine? && !m.comb.first
      requires Registered(m, bound, registry) && Coherent(scope, bound)
      modifies this`cache
      ensures Valid() && Coherent(scope, bound) && Kept(old(cache), cache, bound)
      ensures b == Walk(tree, scope, m, e)
      decreases m, 0
    {
      var cur: nat := e;
      var next := Next(tree, m.comb.dir, cur);
      while next.Some?
        invariant cur < |tree| && next == Next(tree, m.comb.dir, cur)
        invariant Walk(tree, scope, m, e) == Walk(tree, scope, m, cur)
        invariant Valid() && Coherent(scope, bound) && Kept(old(cache), cache, bound)
        decreases cur
      {
        cur := next.value;
        if Eligible(tree, m.comb, m.base, cur) {
          b := Nested(m, cur, scope, bound);
          if b { return; }
        }
        next := Next(tree, m.comb.dir, cur);
      }
      b := false;
    }

    /** The call of the inner matcher on a node of the walk of `m`. */
    method Nested(m: Matcher, e: nat, scope: Scope, ghost bound: nat) returns (b: bool)
      requires Valid() && e < |tree| && m.Combine? && Registered(m, bound, registry) && Coherent(scope, bound)
      modifies this`cache
      ensures Valid() && Coherent(scope, bound) && Kept(old(cache), cache, m.name)
      ensures b == Eval(tree, scope, m.inner, e)
      decreases m.inner, 3
    {
      b := Match(m.inner, e, scope, m.name);
    }

    /** The cache in the middle of a walk of `m`: only the walk's own entry, on the nodes passed so far, is not
        truthful yet; it will be once its result is the answer of the walk. */
    ghost predicate Walking(scope: Scope, m: Matcher, bound: nat, newCache: CacheEntry, low: nat, answer: bool)
      requires m.Combine?
      reads this, newCache, cache.Values
    {
      && (forall k :: k in cache && cache[k] != newCache ==> Truthful(scope, bound, k, cache[k]))
      && (forall k :: k in cache && cache[k] == newCache ==>
            k.0 < |tree| && low <= k.0 && FromHere(tree, scope, m, k.0) == answer)
    }

    /** One node of a memoised walk: put the shared entry on it, then ask the inner matcher. */
    method Probe(m: Matcher, x: nat, scope: Scope, ghost bound: nat, newCache: CacheEntry, ghost answer: bool)
      returns (b: bool)
      requires Valid() && x < |tree| && m.Combine? && Registered(m, bound, registry)
      requires newCache.name == m.name && newCache.run == dirruns
      requires Walking(scope, m, bound, newCache, x + 1, answer) && answer == FromHere(tree, scope, m, x)
      modifies this`cache, newCache
      ensures Valid() && Walking(scope, m, bound, newCache, x, answer)
      ensures Kept(old(cache)[(x, m.comb.dir) := newCache], cache, m.name)
      ensures b == Eval(tree, scope, m.inner, x) == newCache.result
      decreases m, 0
    {
      cache := cache[(x, m.comb.dir) := newCache];
      b := AskInner(m, x, scope, bound, newCache, answer);
      newCache.result := b;
    }

    /** The call of the inner matcher in the middle of a walk. */
    method AskInner(m: Matcher, x: nat, scope: Scope, ghost bound: nat, newCache: CacheEntry, ghost answer: bool)
      returns (b: bool)
      requires Valid() && x < |tree| && m.Combine? && Registered(m, bound, registry)
      requires newCache.name == m.name && Walking(scope, m, bound, newCache, x, answer)
      modifies this`cache
      ensures Valid() && Walking(scope, m, bound, newCache, x, answer) && Kept(old(cache), cache, m.name)
      ensures b == Eval(tree, scope, m.inner, x)
      decreases m.inner, 3
    {
      ghost var before := cache;
      assert forall k :: k in cache && cache[k].name < m.name ==> Truthful(scope, bound, k, cache[k]);
      label Before:
      b := Match(m.inner, x, scope, m.name);
      forall k | k in cache && cache[k] != newCache ensures Truthful(scope, bound, k, cache[k]) {
        if k in before && cache[k] == before[k] {
          assert old@Before(Truthful(scope, bound, k, before[k]));
        } else {
          assert Truthful(scope, m.name, k, cache[k]);
        }
      }
    }

    /** All ancestors or preceding elements, with the cache. */
    method MatchCached(m: Matcher, e: nat, scope: Scope, ghost bound: nat) returns (b: bool)
      requires Valid() && e < |tree| && m.Combine? && !m.comb.first
      requires Registered(m, bound, registry) && Coherent(scope, bound)
      modifies this`cache
      ensures Valid() && Coherent(scope, bound) && Kept(old(cache), cache, bound)
      ensures b == Walk(tree, scope, m, e)
      decreases m, 1
    {
      var dir := m.comb.dir;
      var newCache := new CacheEntry(dirruns, m.name);
      ghost var answer := Walk(tree, scope, m, e);
      var cur: nat := e;
      var next := Next(tree, dir, cur);
      while next.Some?
        invariant cur < |tree| && next == Next(tree, dir, cur)
        invariant answer == Walk(tree, scope, m, cur)
        invariant Valid() && Kept(old(cache), cache, bound) && !newCache.result
        invariant Walking(scope, m, bound, newCache, cur, answer)
        decreases cur
      {
        var x := next.value;
        if Eligible(tree, m.comb, m.base, x) {
          if (x, dir) in cache && cache[(x, dir)].run == dirruns && cache[(x, dir)].name == m.name {
            assert Truthful(scope, bound, (x, dir), cache[(x, dir)]);
            newCache.result := cache[(x, dir)].result;
            return newCache.result;
          }
          b := Probe(m, x, scope, bound, newCache, answer);
          if b { return; }
        }
        cur := x;
        next := Next(tree, dir, cur);
      }
      b := false;
    }

    /** `addCombinator`: a fresh name for every compiled combinator. */
    method AddCombinator(inner: Matcher, comb: Combinator, base: bool) returns (m: Matcher)
      requires Valid() && Registered(inner, done, registry)
      modifies this`done, this`registry
      ensures Valid() && Extends(old(done), old(registry), done, registry)
      ensures m == Combine(inner, comb, base, old(done)) && Registered(m, done, registry)
    {
      m := Combine(inner, comb, base, done);
      RegisteredStays(inner, done, registry, done, registry[done := m]);
      registry := registry[done := m];
      done := done + 1;
    }

    /** The first entry of `matchers`: elements must be reachable from the context. */
    method ContextMatcher(tokens: seq<Token>) returns (guard: Matcher)
      requires Valid() && |tokens| > 0
      modifies this`done, this`registry
      ensures Valid() && Extends(old(done), old(registry), done, registry)
      ensures Registered(guard, done, registry)
      ensures Denotes(tree, guard, tokens, Start(tokens))
    {
      var relative := CombinatorOf(if Leading(tokens) then tokens[0].relation else Descendant);
      var matchContext := AddCombinator(IsContext, relative, true);
      ghost var bound, reg := done, registry;
      var matchAnyContext := AddCombinator(AmongContexts, relative, true);
      RegisteredStays(matchContext, bound, reg, done, registry);
      guard := ContextGuard(Leading(tokens), matchContext, matchAnyContext);
      ContextMeaning(tree, tokens, guard);
    }

    ghost predicate AllRegistered(matchers: seq<Matcher>)
      reads this
    {
      forall j :: 0 <= j < |matchers| ==> Registered(matchers[j], done, registry)
    }

    /** `matcherFromTokens`: the compiled matcher means what the selector means, in every scope. */
    method MatcherFromTokens(tokens: seq<Token>) returns (m: Matcher)
      requires Valid() && |tokens| > 0
      modifies this`done, this`registry
      ensures Valid() && Extends(old(done), old(registry), done, registry)
      ensures Registered(m, done, registry)
      ensures Denotes(tree, m, tokens, |tokens|)
    {
      var i := Start(tokens);
      var guard := ContextMatcher(tokens);
      var matchers := [guard];
      while i < |tokens|
        invariant Start(tokens) <= i <= |tokens| && |matchers| > 0
        invariant Valid() && Extends(old(done), old(registry), done, registry)
        invariant AllRegistered(matchers)
        invariant Denotes(tree, ElementMatcher(matchers), tokens, i)
        decreases |tokens| - i
      {
        if tokens[i].Relative? {
          var inner := ElementMatcher(matchers);
          var combined := AddCombinator(inner, CombinatorOf(tokens[i].relation), false);
          RelativeMeaning(tree, tokens, i, inner, combined);
          matchers := [combined];
        } else {
          FilterMeaning(tree, tokens, i, matchers, tokens[i].test);
          matchers := matchers + [Test(tokens[i].test)];
        }
        i := i + 1;
      }
      m := ElementMatcher(matchers);
    }

    /** `Sizzle.compile`: one matcher for every comma-separated group, the last group first. */
    method Compile(groups: seq<seq<Token>>) returns (matchers: seq<Matcher>)
      requires Valid() && forall g :: 0 <= g < |groups| ==> |groups[g]| > 0
      modifies this`done, this`registry
      ensures Valid() && AllRegistered(matchers) && |matchers| == |groups|
      ensures forall g :: 0 <= g < |groups| ==> Denotes(tree, matchers[|groups| - 1 - g], groups[g], |groups[g]|)
    {
      matchers := [];
      var i := |groups|;
      while i > 0
        invariant 0 <= i <= |groups| && |matchers| == |groups| - i
        invariant Valid() && AllRegistered(matchers)
        invariant forall g :: i <= g < |groups| ==> Denotes(tree, matchers[|groups| - 1 - g], groups[g], |groups[g]|)
      {
        i := i - 1;
        ghost var bound, reg := done, registry;
        var m := MatcherFromTokens(groups[i]);
        forall j | 0 <= j < |matchers| ensures Registered(matchers[j], done, registry) {
          RegisteredStays(matchers[j], bound, reg, done, registry);
        }
        matchers := matchers + [m];
      }
    }

    /** One element against all matchers of the run. */
    method MatchesSome(matchers: seq<Matcher>, e: nat, scope: Scope) returns (b: bool)
      requires Valid() && e < |tree| && AllRegistered(matchers) && Coherent(scope, done)
      modifies this`cache
      ensures Valid() && Coherent(scope, done)
      ensures b <==> exists j :: 0 <= j < |matchers| && Eval(tree, scope, matchers[j], e)
    {
      b := false;
      var j := 0;
      while j < |matchers| && !b
        invariant 0 <= j <= |matchers|
        invariant Valid() && Coherent(scope, done)
        invariant b <==> exists i :: 0 <= i < j && Eval(tree, scope, matchers[i], e)
        decreases |matchers| - j
      {
        b := Match(matchers[j], e, scope, done);
        j := j + 1;
      }
    }

    /** `superMatcher` without set matchers: a new run number makes every entry left in the cache stale. */
    method SuperMatcher(matchers: seq<Matcher>, elems: seq<nat>, scope: Scope, results: seq<nat>)
      returns (matched: seq<nat>)
      requires Valid() && AllRegistered(matchers) && InTree(tree, elems)
      modifies this`cache, this`dirruns
      ensures Valid()
      ensures matched == results + Passing(tree, scope, matchers, elems)
    {
      dirruns := dirruns + 1;
      matched := results;
      for i := 0 to |elems|
        invariant Valid() && Coherent(scope, done)
        invariant matched == results + Passing(tree, scope, matchers, elems[..i])
      {
        assert elems[..i + 1][..i] == elems[..i];
        var b := MatchesSome(matchers, elems[i], scope);
        if b { matched := matched + [elems[i]]; }
      }
      assert elems[..|elems|] == elems;
    }

    /** Whatever earlier runs left behind, a query returns exactly the subjects of the selector, in the order given. */
    method Select(groups: seq<seq<Token>>, elems: seq<nat>, scope: Scope) returns (matched: seq<nat>)
      requires Valid() && InTree(tree, elems)
      requires forall g :: 0 <= g < |groups| ==> |groups[g]| > 0
      modifies this`cache, this`dirruns, this`done, this`registry
      ensures Valid()
      ensures matched == Subjects(tree, scope, groups, elems)
    {
      var matchers := Compile(groups);
      matched := SuperMatcher(matchers, elems, scope, []);
      PassingIsSubjects(tree, scope, groups, matchers, elems);
    }
  }

  /** The elements some matcher accepts, in order. */
  ghost function Passing(tree: Tree, scope: Scope, matchers: seq<Matcher>, elems: seq<nat>): seq<nat>
    requires InTree(tree, elems)
  {
    if elems == [] then []
    else
      var n := |elems| - 1;
      Passing(tree, scope, matchers, elems[..n])
      + if exists j :: 0 <= j < |matchers| && Eval(tree, scope, matchers[j], elems[n]) then [elems[n]] else []
  }

  lemma {:induction false} PassingIsSubjects(tree: Tree, scope: Scope, groups: seq<seq<Token>>,
                                             matchers: seq<Matcher>, elems: seq<nat>)
    requires InTree(tree, elems)
    requires |matchers| == |groups| && forall g :: 0 <= g < |groups| ==> |groups[g]| > 0
    requires forall g :: 0 <= g < |groups| ==> Denotes(tree, matchers[|groups| - 1 - g], groups[g], |groups[g]|)
    ensures Passing(tree, scope, matchers, elems) == Subjects(tree, scope, groups, elems)
  {
    if elems != [] {
      var n := |elems| - 1;
      PassingIsSubjects(tree, scope, groups, matchers, elems[..n]);
      forall g | 0 <= g < |groups|
        ensures Means(tree, scope, groups[g], |groups[g]|, elems[n]) ==
                Eval(tree, scope, matchers[|groups| - 1 - g], elems[n])
      {
        assert Denotes(tree, matchers[|groups| - 1 - g], groups[g], |groups[g]|);
      }
      forall j | 0 <= j < |matchers| && Eval(tree, scope, matchers[j], elems[n])
        ensures exists g :: 0 <= g < |groups| && Means(tree, scope, groups[g], |groups[g]|, elems[n])
      {
        var g := |groups| - 1 - j;
        assert Means(tree, scope, groups[g], |groups[g]|, elems[n]);
      }
    }
  }

  /** `elementMatcher`: the conjunction of its parts. */
  function ElementMatcher(matchers: seq<Matcher>): Matcher
    requires |matchers| > 0
  {
    if |matchers| > 1 then All(matchers) else matchers[0]
  }

  ghost predicate Extends(bound: nat, reg: Registry, bound': nat, reg': Registry) {
    bound <= bound' && forall n :: n in reg ==> n in reg' && reg'[n] == reg[n]
  }

  lemma RegisteredStays(m: Matcher, bound: nat, reg: Registry, bound': nat, reg': Registry)
    requires Registered(m, bound, reg)
    requires bound <= bound' && forall n :: n in reg && n < bound ==> n in reg' && reg'[n] == reg[n]
    ensures Registered(m, bound', reg')
  {
  }

  ghost predicate Denotes(tree: Tree, m: Matcher, tokens: seq<Token>, n: nat)
    requires Start(tokens) <= n <= |tokens|
  {
    forall scope, e: nat :: e < |tree| ==> Eval(tree, scope, m, e) == Means(tree, scope, tokens, n, e)
  }

  lemma ContextMeaning(tree: Tree, tokens: seq<Token>, guard: Matcher)
    requires |tokens| > 0 && guard.ContextGuard? && guard.leading == Leading(tokens)
    requires guard.viaOne.Combine? && guard.viaOne.inner == IsContext && guard.viaOne.base
    requires guard.viaMany.Combine? && guard.viaMany.inner == AmongContexts && guard.viaMany.base
    requires guard.viaOne.comb == guard.viaMany.comb
             == CombinatorOf(if Leading(tokens) then tokens[0].relation else Descendant)
    ensures Denotes(tree, guard, tokens, Start(tokens))
  {
    forall scope, e: nat | e < |tree|
      ensures Eval(tree, scope, guard, e) == Means(tree, scope, tokens, Start(tokens), e)
    {
      var r := if Leading(tokens) then tokens[0].relation else Descendant;
      WalkIsRelated(tree, scope, guard.viaOne, r, e);
      WalkIsRelated(tree, scope, guard.viaMany, r, e);
    }
  }

  lemma RelativeMeaning(tree: Tree, tokens: seq<Token>, i: nat, inner: Matcher, combined: Matcher)
    requires Start(tokens) <= i < |tokens| && tokens[i].Relative? && Denotes(tree, inner, tokens, i)
    requires combined.Combine? && combined.inner == inner && !combined.base
    requires combined.comb == CombinatorOf(tokens[i].relation)
    ensures Denotes(tree, combined, tokens, i + 1)
  {
    forall scope, e: nat | e < |tree|
      ensures Eval(tree, scope, combined, e) == Means(tree, scope, tokens, i + 1, e)
    {
      WalkIsRelated(tree, scope, combined, tokens[i].relation, e);
    }
  }

  lemma FilterMeaning(tree: Tree, tokens: seq<Token>, i: nat, matchers: seq<Matcher>, test: nat -> bool)
    requires Start(tokens) <= i < |tokens| && tokens[i] == Filter(test)
    requires |matchers| > 0 && Denotes(tree, ElementMatcher(matchers), tokens, i)
    ensures Denotes(tree, ElementMatcher(matchers + [Test(test)]), tokens, i + 1)
  {
    var ms := matchers + [Test(test)];
    forall scope, e: nat | e < |tree|
      ensures Eval(tree, scope, ElementMatcher(ms), e) == Means(tree, scope, tokens, i + 1, e)
    {
      assert Eval(tree, scope, ElementMatcher(matchers), e) == Means(tree, scope, tokens, i, e);
      assert Eval(tree, scope, ms[|matchers|], e) == test(e);
      assert forall j :: 0 <= j < |matchers| ==> ms[j] == matchers[j];
    }
  }
}
