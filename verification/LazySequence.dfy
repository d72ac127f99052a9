/** lodash lazy sequences: a chain of calls is compiled into views, a direction, iteratees and a take count, and
    then run as one fused loop that must return what the calls return one by one. */
module LazySequence {
  import opened Options

  const LARGE_ARRAY_SIZE := 200

  /** The calls of a chain; `TakeRightWhile` and the aliases built from these are not listed. */
  datatype Op<!T> =
    | Map(f: T -> T)
    | Filter(p: T -> bool)
    | TakeWhile(p: T -> bool)
    | Take(n: int)
    | Drop(n: int)
    | TakeRight(n: int)
    | DropRight(n: int)
    | Reverse

  // ----- the eager meaning: each call on its own

  function Clamp(n: int): (r: nat) {
    if n < 0 then 0 else n
  }

  function TakeFirst<T>(s: seq<T>, n: nat): seq<T> {
    if n < |s| then s[..n] else s
  }

  function DropFirst<T>(s: seq<T>, n: nat): seq<T> {
    if n < |s| then s[n..] else []
  }

  function TakeLast<T>(s: seq<T>, n: nat): seq<T> {
    if n < |s| then s[|s| - n..] else s
  }

  function DropLast<T>(s: seq<T>, n: nat): seq<T> {
    if n < |s| then s[..|s| - n] else []
  }

  function Mapped<T>(f: T -> T, s: seq<T>): (r: seq<T>)
    ensures |r| == |s|
  {
    if s == [] then [] else [f(s[0])] + Mapped(f, s[1..])
  }

  function Filtered<T>(p: T -> bool, s: seq<T>): (r: seq<T>)
    ensures |r| <= |s|
  {
    if s == [] then [] else (if p(s[0]) then [s[0]] else []) + Filtered(p, s[1..])
  }

  function Prefix<T>(p: T -> bool, s: seq<T>): seq<T> {
    if s == [] || !p(s[0]) then [] else [s[0]] + Prefix(p, s[1..])
  }

  function Reversed<T>(s: seq<T>): (r: seq<T>)
    ensures |r| == |s|
  {
    seq(|s|, i requires 0 <= i < |s| => s[|s| - 1 - i])
  }

  function Apply<T>(op: Op<T>, s: seq<T>): seq<T> {
    match op
    case Map(f) => Mapped(f, s)
    case Filter(p) => Filtered(p, s)
    case TakeWhile(p) => Prefix(p, s)
    case Take(n) => TakeFirst(s, Clamp(n))
    case Drop(n) => DropFirst(s, Clamp(n))
    case TakeRight(n) => TakeLast(s, Clamp(n))
    case DropRight(n) => DropLast(s, Clamp(n))
    case Reverse => Reversed(s)
  }

  function ApplyAll<T>(ops: seq<Op<T>>, s: seq<T>): seq<T> {
    if ops == [] then s else Apply(ops[|ops| - 1], ApplyAll(ops[..|ops| - 1], s))
  }

  // ----- wrappers and the calls that build them

  datatype ViewType = DropView | DropRightView | TakeView | TakeRightView
  datatype View = View(kind: ViewType, size: nat)
  datatype Iteratee<!T> = MapIt(f: T -> T) | FilterIt(p: T -> bool) | WhileIt(p: T -> bool)

  /** `Wrapped` is a `LodashWrapper` on an array; `Lazy` is a `LazyWrapper` on another wrapper. */
  datatype Chain<!T> =
    | Wrapped(source: seq<T>, pending: seq<Op<T>>)
    | Lazy(inner: Chain<T>, actions: seq<Op<T>>, backward: bool, filtered: bool,
           iteratees: seq<Iteratee<T>>, takeCount: Option<nat>, views: seq<View>)

  function NewLazy<T>(inner: Chain<T>): (r: Chain<T>)
    ensures r.Lazy?
  {
    Lazy(inner, [], false, false, [], None, [])
  }

  function LazyReverse<T>(c: Chain<T>): (r: Chain<T>)
    requires c.Lazy?
    ensures r.Lazy?
  {
    if c.filtered then Lazy(c, [], true, true, [], None, []) else c.(backward := !c.backward)
  }

  function LazyTake<T>(c: Chain<T>, n: int): (r: Chain<T>)
    requires c.Lazy?
    ensures r.Lazy?
  {
    if c.filtered then
      c.(takeCount := Some(if c.takeCount.Some? && c.takeCount.value < Clamp(n) then c.takeCount.value else Clamp(n)))
    else
      c.(views := c.views + [View(if c.backward then TakeRightView else TakeView, Clamp(n))])
  }

  function LazyDrop<T>(c: Chain<T>, n: int): (r: Chain<T>)
    requires c.Lazy?
    ensures r.Lazy?
  {
    if c.filtered then NewLazy(c)
    else c.(views := c.views + [View(if c.backward then DropRightView else DropView, Clamp(n))])
  }

  function LazyIteratee<T>(c: Chain<T>, it: Iteratee<T>): (r: Chain<T>)
    requires c.Lazy?
    ensures r.Lazy?
  {
    c.(iteratees := c.iteratees + [it], filtered := c.filtered || !it.MapIt?)
  }

  /** The method of `LazyWrapper.prototype` behind a call. */
  function LazyMethod<T>(c: Chain<T>, op: Op<T>): (r: Chain<T>)
    requires c.Lazy?
    ensures r.Lazy?
  {
    match op
    case Map(f) => LazyIteratee(c, MapIt(f))
    case Filter(p) => LazyIteratee(c, FilterIt(p))
    case TakeWhile(p) => LazyIteratee(c, WhileIt(p))
    case Take(n) => LazyTake(c, n)
    case Drop(n) => LazyDrop(c, n)
    case TakeRight(n) => LazyReverse(LazyTake(LazyReverse(c), n))
    case DropRight(n) => LazyReverse(LazyDrop(LazyReverse(c), n))
    case Reverse => LazyReverse(c)
  }

  /** The method of `lodash.prototype`: go lazy, call the lazy method, and record the call as an eager action. */
  function Call<T>(c: Chain<T>, op: Op<T>): Chain<T> {
    if c.Wrapped? && op.Reverse? then c.(pending := c.pending + [op])
    else
      var lazy := LazyMethod(if c.Lazy? then c else NewLazy(c), op);
      lazy.(actions := lazy.actions + [op])
  }

  function CallAll<T>(c: Chain<T>, ops: seq<Op<T>>): Chain<T> {
    if ops == [] then c else Call(CallAll(c, ops[..|ops| - 1]), ops[|ops| - 1])
  }

  // ----- what the fused loop computes

  datatype Bounds = Bounds(lo: int, hi: int)

  /** One step of `getView`. */
  function Narrow(v: Bounds, view: View): Bounds {
    match view.kind
    case DropView => v.(lo := v.lo + view.size)
    case DropRightView => v.(hi := v.hi - view.size)
    case TakeView => if v.hi <= v.lo + view.size then v else v.(hi := v.lo + view.size)
    case TakeRightView => if v.lo >= v.hi - view.size then v else v.(lo := v.hi - view.size)
  }

  function Window(length: nat, views: seq<View>): (v: Bounds)
    ensures 0 <= v.lo && v.hi <= length
  {
    if views == [] then Bounds(0, length) else Narrow(Window(length, views[..|views| - 1]), views[|views| - 1])
  }

  function Slice<T>(s: seq<T>, v: Bounds): seq<T>
    requires 0 <= v.lo && v.hi <= |s|
  {
    if v.lo <= v.hi then s[v.lo..v.hi] else []
  }

  datatype Verdict<+T> = Keep(value: T) | Skip | Stop

  /** One element through the iteratees from `i` on. */
  function Through<T>(its: seq<Iteratee<T>>, i: nat, value: T): Verdict<T>
    requires i <= |its|
    decreases |its| - i
  {
    if i == |its| then Keep(value)
    else
      match its[i]
      case MapIt(f) => Through(its, i + 1, f(value))
      case FilterIt(p) => if p(value) then Through(its, i + 1, value) else Skip
      case WhileIt(p) => if p(value) then Through(its, i + 1, value) else Stop
  }

  function Pipe<T>(its: seq<Iteratee<T>>, s: seq<T>): (r: seq<T>)
    ensures |r| <= |s|
  {
    if s == [] then []
    else
      match Through(its, 0, s[0])
      case Keep(v) => [v] + Pipe(its, s[1..])
      case Skip => Pipe(its, s[1..])
      case Stop => []
  }

  /** The elements the loop visits, in its order. */
  function Visited<T>(c: Chain<T>, source: seq<T>): seq<T>
    requires c.Lazy?
  {
    var seen := Slice(source, Window(|source|, c.views));
    if c.backward then Reversed(seen) else seen
  }

  /** `t` is the window `w` of `source`, read in the given direction. */
  ghost predicate Covers<T>(t: seq<T>, source: seq<T>, backward: bool, w: Bounds)
    requires 0 <= w.lo && w.hi <= |source|
  {
    && |t| == Clamp(w.hi - w.lo)
    && forall k :: 0 <= k < |t| ==> t[k] == source[if backward then w.hi - 1 - k else w.lo + k]
  }

  lemma {:induction false} VisitedAt<T>(c: Chain<T>, source: seq<T>)
    requires c.Lazy?
    ensures Covers(Visited(c, source), source, c.backward, Window(|source|, c.views))
  {
    var w := Window(|source|, c.views);
    SliceCovers(source, w);
    if c.backward { ReversedCovers(Slice(source, w), source, w); }
  }

  lemma SliceCovers<T>(source: seq<T>, w: Bounds)
    requires 0 <= w.lo && w.hi <= |source|
    ensures Covers(Slice(source, w), source, false, w)
  {
  }

  lemma ReversedCovers<T>(s: seq<T>, source: seq<T>, w: Bounds)
    requires 0 <= w.lo && w.hi <= |source| && Covers(s, source, false, w)
    ensures Covers(Reversed(s), source, true, w)
  {
  }

  lemma PipeStep<T>(its: seq<Iteratee<T>>, s: seq<T>, k: nat)
    requires k < |s|
    ensures match Through(its, 0, s[k])
            case Keep(v) => Pipe(its, s[k..]) == [v] + Pipe(its, s[k + 1..])
            case Skip => Pipe(its, s[k..]) == Pipe(its, s[k + 1..])
            case Stop => Pipe(its, s[k..]) == []
  {
  }

  function Fused<T>(c: Chain<T>, source: seq<T>): seq<T>
    requires c.Lazy?
  {
    var piped := Pipe(c.iteratees, Visited(c, source));
    if c.takeCount.None? then piped else TakeFirst(piped, c.takeCount.value)
  }

  /** The guard of `lazyValue`: small or whole arrays go through the recorded actions. */
  predicate TakesActions<T>(c: Chain<T>, source: seq<T>)
    requires c.Lazy?
  {
    var w := Window(|source|, c.views);
    var length := w.hi - w.lo;
    |source| < LARGE_ARRAY_SIZE || (length == |source| && (c.takeCount.None? || length <= c.takeCount.value))
  }

  function Value<T>(c: Chain<T>): seq<T> {
    match c
    case Wrapped(source, pending) => ApplyAll(pending, source)
    case Lazy(inner, actions, _, _, _, _, _) =>
      var source := Value(inner);
      if TakesActions(c, source) then ApplyAll(actions, source) else Fused(c, source)
  }

  // ----- the loops

  method GetView(start: int, end: int, views: seq<View>) returns (s: int, e: int)
    requires start == 0 && end >= 0
    ensures Bounds(s, e) == Window(end, views)
  {
    s, e := start, end;
    for i := 0 to |views|
      invariant Bounds(s, e) == Window(end, views[..i])
    {
      assert views[..i + 1][..i] == views[..i];
      match views[i].kind
      case DropView => s := s + views[i].size;
      case DropRightView => e := e - views[i].size;
      case TakeView => if e > s + views[i].size { e := s + views[i].size; }
      case TakeRightView => if s < e - views[i].size { s := e - views[i].size; }
    }
    assert views[..|views|] == views;
  }

  method BaseWrapperValue<T>(value: seq<T>, actions: seq<Op<T>>) returns (result: seq<T>)
    ensures result == ApplyAll(actions, value)
  {
    result := value;
    for i := 0 to |actions|
      invariant result == ApplyAll(actions[..i], value)
    {
      assert actions[..i + 1][..i] == actions[..i];
      result := Apply(actions[i], result);
    }
    assert actions[..|actions|] == actions;
  }

  /** The inner loop over the iteratees. */
  method RunIteratees<T>(its: seq<Iteratee<T>>, element: T) returns (verdict: Verdict<T>)
    ensures verdict == Through(its, 0, element)
  {
    var value := element;
    for i := 0 to |its|
      invariant Through(its, 0, element) == Through(its, i, value)
    {
      match its[i]
      case MapIt(f) => value := f(value);
      case FilterIt(p) => if !p(value) { return Skip; }
      case WhileIt(p) => if !p(value) { return Stop; }
    }
    verdict := Keep(value);
  }

  lemma Regroup<T>(a: seq<T>, x: T, b: seq<T>)
    ensures a + ([x] + b) == (a + [x]) + b
  {
  }

  /** The loop stops at the length of the window or at the take count, whichever is smaller. */
  lemma FusedIsCapped<T>(c: Chain<T>, source: seq<T>, length: int, takeCount: int)
    requires c.Lazy? && length == Window(|source|, c.views).hi - Window(|source|, c.views).lo
    requires takeCount == if c.takeCount.Some? && c.takeCount.value < length then c.takeCount.value else length
    ensures Fused(c, source) == TakeFirst(Pipe(c.iteratees, Visited(c, source)), Clamp(takeCount))
  {
    var piped := Pipe(c.iteratees, Visited(c, source));
    VisitedAt(c, source);
    assert |piped| <= Clamp(length);
  }

  /** The loop labelled `outer`: at most `takeCount` results from the window, visited in the given direction. */
  method FusedLoop<T>(source: seq<T>, its: seq<Iteratee<T>>, backward: bool, start: int, end: int, takeCount: int,
                      ghost visited: seq<T>)
    returns (result: seq<T>)
    requires 0 <= start && end <= |source| && takeCount <= end - start
    requires Covers(visited, source, backward, Bounds(start, end))
    ensures result == TakeFirst(Pipe(its, visited), Clamp(takeCount))
  {
    var length := end - start;
    var index := if backward then end else start - 1;
    result := [];
    ghost var k := 0;
    ghost var rest := Pipe(its, visited);
    assert visited[0..] == visited;
    while length != 0 && |result| < takeCount
      invariant 0 <= k <= |visited|
      invariant if length >= 0 then k + length == |visited| else takeCount < 0
      invariant index == if backward then end - k else start - 1 + k
      invariant |result| <= k && |result| <= Clamp(takeCount)
      invariant rest == Pipe(its, visited[k..])
      invariant Pipe(its, visited) == result + rest
      decreases |visited| - k
    {
      length := length - 1;
      index := index + if backward then -1 else 1;
      PipeStep(its, visited, k);
      var verdict := RunIteratees(its, source[index]);
      if verdict.Stop? { break; }
      rest := Pipe(its, visited[k + 1..]);
      if verdict.Keep? {
        Regroup(result, verdict.value, rest);
        result := result + [verdict.value];
      }
      k := k + 1;
    }
    assert visited[|visited|..] == [];
  }

  /** `lazyValue` (and `wrapperValue` on a plain wrapper). */
  method LazyValue<T>(c: Chain<T>) returns (result: seq<T>)
    ensures result == Value(c)
    decreases c
  {
    if c.Wrapped? {
      result := BaseWrapperValue(c.source, c.pending);
      return;
    }
    var source := LazyValue(c.inner);
    var start, end := GetView(0, |source|, c.views);
    var length := end - start;
    var takeCount := if c.takeCount.Some? && c.takeCount.value < length then c.takeCount.value else length;
    if |source| < LARGE_ARRAY_SIZE || (|source| == length && takeCount == length) {
      result := BaseWrapperValue(source, c.actions);
    } else {
      ghost var visited := Visited(c, source);
      VisitedAt(c, source);
      FusedIsCapped(c, source, length, takeCount);
      result := FusedLoop(source, c.iteratees, c.backward, start, end, takeCount, visited);
    }
  }
}
