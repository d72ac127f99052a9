/** Which shapes of lodash chains are evaluated faithfully: exactly those that the state machine of `LazyMeaning`
    accepts. */
module LazyShapes {
  import opened Options
  import opened LazySequence
  import opened LazyMeaning

  /** The same method, whatever it is given. */
  predicate SameMethod<T>(a: Op<T>, b: Op<T>) {
    match a
    case Map(_) => b.Map?
    case Filter(_) => b.Filter?
    case TakeWhile(_) => b.TakeWhile?
    case Take(_) => b.Take?
    case Drop(_) => b.Drop?
    case TakeRight(_) => b.TakeRight?
    case DropRight(_) => b.DropRight?
    case Reverse => b.Reverse?
  }

  ghost predicate SameShape<T>(a: seq<Op<T>>, b: seq<Op<T>>) {
    |a| == |b| && forall i :: 0 <= i < |a| ==> SameMethod(a[i], b[i])
  }

  lemma {:induction false} ShapeDecides<T>(a: seq<Op<T>>, b: seq<Op<T>>)
    requires SameShape(a, b)
    ensures AfterAll(a) == AfterAll(b)
  {
    if a != [] { ShapeDecides(a[..|a| - 1], b[..|b| - 1]); }
  }

  // ----- calls that change nothing

  /** The call of the same method that leaves up to `n` elements as they are, but for reversing them. */
  function Neutral(op: Op<int>, n: nat): (r: Op<int>)
    ensures SameMethod(r, op)
  {
    match op
    case Map(_) => Map(x => x)
    case Filter(_) => Filter(x => true)
    case TakeWhile(_) => TakeWhile(x => true)
    case Take(_) => Take(n)
    case Drop(_) => Drop(0)
    case TakeRight(_) => TakeRight(n)
    case DropRight(_) => DropRight(0)
    case Reverse => Reverse
  }

  function Turned(s: seq<int>, reverse: bool): (r: seq<int>)
    ensures |r| == |s|
  {
    if reverse then Reversed(s) else s
  }

  lemma TurnedApart(s: seq<int>, t: seq<int>, reverse: bool)
    requires s != t
    ensures Turned(s, reverse) != Turned(t, reverse)
  {
    if reverse && |s| == |t| {
      var i :| 0 <= i < |s| && s[i] != t[i];
      assert Reversed(s)[|s| - 1 - i] == s[i] && Reversed(t)[|s| - 1 - i] == t[i];
    }
  }

  lemma {:induction false} MappedSame(f: int -> int, s: seq<int>)
    requires forall x :: f(x) == x
    ensures Mapped(f, s) == s
  {
    if s != [] { MappedSame(f, s[1..]); }
  }

  lemma {:induction false} PrefixAll(p: int -> bool, s: seq<int>)
    requires forall x :: p(x)
    ensures Prefix(p, s) == s
  {
    if s != [] { PrefixAll(p, s[1..]); }
  }

  lemma NeutralApplies(op: Op<int>, n: nat, s: seq<int>)
    requires |s| <= n
    ensures Apply(Neutral(op, n), s) == Turned(s, op.Reverse?)
  {
    match op
    case Map(_) => MappedSame(x => x, s);
    case Filter(_) => FilteredFull(x => true, s);
    case TakeWhile(_) => PrefixAll(x => true, s);
    case _ =>
  }

  lemma NeutralIteratee(op: Op<int>, n: nat, s: seq<int>)
    requires op.Map? || op.Filter? || op.TakeWhile?
    ensures ApplyIteratee(IterateeOf(Neutral(op, n)), s) == s
  {
    match op
    case Map(_) => MappedSame(x => x, s);
    case Filter(_) => FilteredFull(x => true, s);
    case TakeWhile(_) => PrefixAll(x => true, s);
  }

  /** A neutral iteratee pushed on a wrapper changes neither of its two values. */
  lemma NeutralPushed(c: Chain<int>, op: Op<int>, n: nat, v: seq<int>)
    requires c.Lazy? && (op.Map? || op.Filter? || op.TakeWhile?)
    ensures Fused(Call(c, Neutral(op, n)), v) == Fused(c, v)
    ensures Pipe(Call(c, Neutral(op, n)).iteratees, v) == Pipe(c.iteratees, v)
  {
    var neutral := Neutral(op, n);
    CalledIteratee(c, neutral);
    var s := Visited(c, v);
    assert Visited(Call(c, neutral), v) == s;
    PipeExtended(c.iteratees, IterateeOf(neutral), s);
    PipeExtended(c.iteratees, IterateeOf(neutral), v);
    NeutralIteratee(op, n, Pipe(c.iteratees, s));
    NeutralIteratee(op, n, Pipe(c.iteratees, v));
  }

  /** Whatever has been called, an unfiltered wrapper has only maps to run and no take count. */
  ghost predicate Built(c: Chain<int>) {
    c.Lazy? && !c.filtered ==> MapsOnly(c.iteratees) && c.takeCount.None?
  }

  lemma BuiltCall(c: Chain<int>, op: Op<int>)
    requires Built(c)
    ensures Built(Call(c, op))
  {
  }

  lemma {:induction false} BuiltAll(source: seq<int>, ops: seq<Op<int>>)
    ensures Built(CallAll(Wrapped(source, []), ops))
  {
    if ops != [] {
      BuiltAll(source, ops[..|ops| - 1]);
      BuiltCall(CallAll(Wrapped(source, []), ops[..|ops| - 1]), ops[|ops| - 1]);
    }
  }

  /** `d` is `c` after a neutral call, on the same inner wrapper and on the same path. */
  lemma SamePath(c: Chain<int>, d: Chain<int>, op: Op<int>, n: nat)
    requires c.Lazy? && d.Lazy? && d.inner == c.inner && d.actions == c.actions + [Neutral(op, n)] && |Value(c)| <= n
    requires TakesActions(d, Value(c.inner)) == TakesActions(c, Value(c.inner))
    requires Fused(d, Value(c.inner)) == Turned(Fused(c, Value(c.inner)), op.Reverse?)
    ensures Value(d) == Turned(Value(c), op.Reverse?)
  {
    if TakesActions(c, Value(c.inner)) {
      ApplyAllExtended(c.actions, Neutral(op, n), Value(c.inner));
      NeutralApplies(op, n, Value(c));
    }
  }

  lemma NeutralIterateeCall(c: Chain<int>, op: Op<int>, n: nat)
    requires c.Lazy? && (op.Map? || op.Filter? || op.TakeWhile?) && |Value(c)| <= n
    ensures Value(Call(c, Neutral(op, n))) == Value(c)
  {
    CalledIteratee(c, Neutral(op, n));
    NeutralPushed(c, op, n, Value(c.inner));
    SamePath(c, Call(c, Neutral(op, n)), op, n);
  }

  lemma NeutralViewCall(c: Chain<int>, op: Op<int>, n: nat)
    requires c.Lazy? && !c.filtered && (op.Take? || op.Drop? || op.TakeRight? || op.DropRight?)
    requires |Value(c)| <= n && |Value(c.inner)| <= n
    ensures Value(Call(c, Neutral(op, n))) == Value(c)
  {
    OpenMethod(c, Neutral(op, n));
    NeutralWindow(c, op, n, |Value(c.inner)|);
    NeutralViewed(c, Call(c, Neutral(op, n)), Value(c.inner));
    SamePath(c, Call(c, Neutral(op, n)), op, n);
  }

  lemma NeutralViewed(c: Chain<int>, d: Chain<int>, v: seq<int>)
    requires c.Lazy? && d.Lazy? && d.backward == c.backward && d.iteratees == c.iteratees && d.takeCount == c.takeCount
    requires Window(|v|, d.views) == Window(|v|, c.views)
    ensures Fused(d, v) == Fused(c, v) && TakesActions(d, v) == TakesActions(c, v)
  {
    assert Visited(d, v) == Visited(c, v);
  }

  lemma NeutralWindow(c: Chain<int>, op: Op<int>, n: nat, length: nat)
    requires c.Lazy? && (op.Take? || op.Drop? || op.TakeRight? || op.DropRight?) && length <= n
    ensures var view := View(ViewOf(c.backward, Neutral(op, n)), Clamp(Neutral(op, n).n));
            Window(length, c.views + [view]) == Window(length, c.views)
  {
    WindowExtended(length, c.views, View(ViewOf(c.backward, Neutral(op, n)), Clamp(Neutral(op, n).n)));
  }

  lemma TurnCall(c: Chain<int>, n: nat)
    requires c.Lazy? && !c.filtered && Built(c) && |Value(c)| <= n
    ensures Value(Call(c, Reverse)) == Reversed(Value(c))
  {
    var v := Value(c.inner);
    VisitedReversed(c, v);
    PipeMapsCommute(c.iteratees, Visited(c, v), Reverse);
    assert Visited(Call(c, Reverse), v) == Visited(LazyReverse(c), v);
    SamePath(c, Call(c, Reverse), Reverse, n);
  }

  lemma NeutralTakeCall(c: Chain<int>, op: Op<int>, n: nat)
    requires c.Lazy? && c.filtered && op.Take? && |Value(c)| <= n && |Value(c.inner)| <= n
    ensures Value(Call(c, Neutral(op, n))) == Value(c)
  {
    NeutralTaken(c, Call(c, Neutral(op, n)), n, Value(c.inner));
    SamePath(c, Call(c, Neutral(op, n)), op, n);
  }

  lemma NeutralTaken(c: Chain<int>, d: Chain<int>, n: nat, v: seq<int>)
    requires c.Lazy? && d.Lazy? && d.backward == c.backward
    requires d.iteratees == c.iteratees && d.views == c.views && |v| <= n
    requires d.takeCount == Some(if c.takeCount.Some? && c.takeCount.value < n then c.takeCount.value else n)
    ensures TakesActions(d, v) == TakesActions(c, v) && Fused(d, v) == Fused(c, v)
  {
    VisitedAt(c, v);
    assert Visited(d, v) == Visited(c, v);
    assert |Pipe(c.iteratees, Visited(c, v))| <= n;
  }

  /** Wrappers made around a filtered one apply the one action they have. */
  lemma NeutralWrappingCall(c: Chain<int>, op: Op<int>, n: nat)
    requires c.Lazy? && c.filtered && (op.Drop? || op.DropRight? || op.TakeRight? || op.Reverse?) && |Value(c)| <= n
    ensures Value(Call(c, Neutral(op, n))) == Turned(Value(c), op.Reverse?)
  {
    if op.TakeRight? {
      NeutralTakeRight(c, Value(c), n);
    } else {
      NeutralApplies(op, n, Value(c));
      NeutralWrapped(c, op, n);
    }
  }

  lemma NeutralTakeRight(c: Chain<int>, ys: seq<int>, n: nat)
    requires c.Lazy? && c.filtered && Value(c) == ys && |ys| <= n
    ensures Value(Call(c, TakeRight(n))) == ys
  {
    TakeRightValue(c, ys, n);
  }

  lemma {:induction false} NeutralWrapped(c: Chain<int>, op: Op<int>, n: nat)
    requires c.Lazy? && c.filtered && (op.Drop? || op.DropRight? || op.Reverse?)
    ensures Value(Call(c, Neutral(op, n))) == Apply(Neutral(op, n), Value(c))
  {
    var neutral := Neutral(op, n);
    WrappingCalls(c, neutral);
    WholeBackwards(c, Value(c));
    match op
    case Drop(_) => OneAction(c, neutral, false, false);
    case DropRight(_) => OneAction(Lazy(c, [], true, true, [], None, []), neutral, true, false);
    case Reverse => OneAction(c, neutral, true, true);
  }

  lemma OneAction(inner: Chain<int>, op: Op<int>, backward: bool, filtered: bool)
    ensures Value(Lazy(inner, [op], backward, filtered, [], None, [])) == Apply(op, Value(inner))
  {
    ApplyAllExtended([], op, Value(inner));
    assert TakesActions(Lazy(inner, [op], backward, filtered, [], None, []), Value(inner));
  }

  /** A neutral call changes the value of no wrapper, but for reversing it. */
  lemma NeutralCall(c: Chain<int>, op: Op<int>, n: nat)
    requires c.Lazy? && Built(c) && |Value(c)| <= n && |Value(c.inner)| <= n
    ensures Value(Call(c, Neutral(op, n))) == Turned(Value(c), op.Reverse?)
  {
    if op.Map? || op.Filter? || op.TakeWhile? {
      NeutralIterateeCall(c, op, n);
    } else if c.filtered && op.Take? {
      NeutralTakeCall(c, op, n);
    } else if c.filtered {
      NeutralWrappingCall(c, op, n);
    } else if op.Reverse? {
      TurnCall(c, n);
    } else {
      NeutralViewCall(c, op, n);
    }
  }

  // ----- neutral chains

  const MANY := 1000

  /** The numbers below `MANY`, each once. */
  function Numbers(): (s: seq<int>)
    ensures |s| == MANY && forall i :: 0 <= i < MANY ==> s[i] == i
  {
    seq(MANY, i => i)
  }

  predicate AllDifferent(s: seq<int>) {
    forall i, j :: 0 <= i < j < |s| ==> s[i] != s[j]
  }

  function NeutralChain(shape: seq<Op<int>>): (ops: seq<Op<int>>)
    ensures SameShape(ops, shape)
  {
    seq(|shape|, i requires 0 <= i < |shape| => Neutral(shape[i], MANY))
  }

  function ChainOf(ops: seq<Op<int>>): Chain<int> {
    CallAll(Wrapped(Numbers(), []), ops)
  }

  lemma {:induction false} NeutralChainApplies(shape: seq<Op<int>>)
    ensures var ys := ApplyAll(NeutralChain(shape), Numbers()); |ys| == MANY && AllDifferent(ys)
  {
    if shape != [] {
      var n := |shape| - 1;
      NeutralChainApplies(shape[..n]);
      assert NeutralChain(shape)[..n] == NeutralChain(shape[..n]);
      NeutralApplies(shape[n], MANY, ApplyAll(NeutralChain(shape[..n]), Numbers()));
    }
  }

  /** A shape that the state machine accepts stands for all numbers when its calls are neutral. */
  lemma NeutralStandsFor(shape: seq<Op<int>>) returns (ops: seq<Op<int>>, ys: seq<int>)
    requires AfterAll(shape).Some?
    ensures SameShape(ops, shape) && ys == ApplyAll(ops, Numbers()) && |ys| == MANY && AllDifferent(ys)
    ensures StandsFor(ChainOf(ops), AfterAll(shape).value, ys) && Value(ChainOf(ops)) == ys
    ensures AfterAll(shape) != Some(Open) ==> ChainOf(ops).Lazy?
  {
    ops := NeutralChain(shape);
    ys := ApplyAll(ops, Numbers());
    ShapeDecides(shape, ops);
    FusedIsEager(Numbers(), ops);
    NeutralChainApplies(shape);
  }

  lemma CalledLast(ops: seq<Op<int>>, op: Op<int>)
    ensures ChainOf(ops + [op]) == Call(ChainOf(ops), op)
    ensures ApplyAll(ops + [op], Numbers()) == Apply(op, ApplyAll(ops, Numbers()))
  {
    assert (ops + [op])[..|ops|] == ops;
  }

  lemma ShapedLast(a: seq<Op<int>>, shape: seq<Op<int>>, op: Op<int>)
    requires shape != [] && SameShape(a, shape[..|shape| - 1]) && SameMethod(op, shape[|shape| - 1])
    ensures SameShape(a + [op], shape)
  {
  }

  // ----- `takeRight` on a filtered wrapper

  lemma TakeRightRefused(front: seq<Op<int>>) returns (ops: seq<Op<int>>)
    requires AfterAll(front).Some? && !AfterAll(front).value.Open? && !AfterAll(front).value.Detached?
    ensures SameShape(ops, front) && ChainOf(ops).Lazy?
    ensures Value(Call(ChainOf(ops), TakeRight(2))) != Apply(TakeRight(2), ApplyAll(ops, Numbers()))
  {
    var ys;
    ops, ys := NeutralStandsFor(front);
    TakeRightExact(ChainOf(ops), AfterAll(front).value, ys, 2);
    LastTwoDiffer(ys);
  }

  // ----- `filter` behind a take count

  /** A wrapper with take count one, behind which a second element comes through. */
  ghost predicate Peeking(c: Chain<int>, x: int) {
    && c.Lazy? && StandsFor(c, Limited, [x]) && c.takeCount == Some(1)
    && |Value(c.inner)| >= LARGE_ARRAY_SIZE
    && var piped := Pipe(c.iteratees, Visited(c, Value(c.inner)));
    && |piped| >= 2 && piped[0] == x && piped[1] != x
  }

  lemma PeekingTake(c: Chain<int>, st: State, ys: seq<int>)
    requires c.Lazy? && StandsFor(c, st, ys) && (st.Selecting? || st.Limited?)
    requires |ys| == MANY && ys[0] != ys[1]
    ensures Peeking(Call(c, Take(1)), ys[0])
  {
    var d, v := Call(c, Take(1)), Value(c.inner);
    CallStandsFor(c, st, ys, Take(1));
    assert TakeFirst(ys, 1) == [ys[0]];
    VisitedAt(c, v);
    assert Visited(d, v) == Visited(c, v);
    var piped := Pipe(c.iteratees, Visited(c, v));
    assert ys == Fused(c, v) && ys == piped[..|ys|];
    assert piped[0] == ys[0] && piped[1] == ys[1];
  }

  lemma PeekingNeutral(c: Chain<int>, x: int, op: Op<int>)
    requires Peeking(c, x) && (op.Map? || op.TakeWhile?)
    ensures Peeking(Call(c, Neutral(op, MANY)), x)
  {
    CallStandsFor(c, Limited, [x], Neutral(op, MANY));
    NeutralApplies(op, MANY, [x]);
    CalledIteratee(c, Neutral(op, MANY));
    assert Visited(Call(c, Neutral(op, MANY)), Value(c.inner)) == Visited(c, Value(c.inner));
    NeutralPushed(c, op, MANY, Visited(c, Value(c.inner)));
  }

  lemma PeekingFilter(c: Chain<int>, x: int)
    requires Peeking(c, x)
    ensures Value(Call(c, Filter(z => z != x))) != Apply(Filter(z => z != x), [x])
  {
    var p := z => z != x;
    FilterWhenLimited(c, [x], p);
    var piped := Pipe(c.iteratees, Visited(c, Value(c.inner)));
    FilteredFull(p, piped);
    FilteredFull(p, [x]);
    assert p(piped[1]);
  }

  lemma PeekingStart(front: seq<Op<int>>) returns (ops: seq<Op<int>>, x: int)
    requires AfterAll(front) == Some(Selecting) || AfterAll(front) == Some(Limited)
    ensures SameShape(ops, front) && Peeking(Call(ChainOf(ops), Take(1)), x)
    ensures Apply(Take(1), ApplyAll(ops, Numbers())) == [x]
  {
    var ys;
    ops, ys := NeutralStandsFor(front);
    PeekingTake(ChainOf(ops), AfterAll(front).value, ys);
    x := ys[0];
    assert TakeFirst(ys, 1) == [x];
  }

  lemma {:induction false} PeekingChain(front: seq<Op<int>>) returns (ops: seq<Op<int>>, x: int)
    requires AfterAll(front) == Some(Limited)
    ensures SameShape(ops, front) && Peeking(ChainOf(ops), x) && ApplyAll(ops, Numbers()) == [x]
  {
    var rest, last := front[..|front| - 1], front[|front| - 1];
    var op: Op<int>;
    if last.Take? {
      op := Take(1);
      ops, x := PeekingStart(rest);
    } else {
      op := Neutral(last, MANY);
      ops, x := PeekingChain(rest);
      PeekingNeutral(ChainOf(ops), x, last);
      NeutralApplies(last, MANY, [x]);
    }
    ShapedLast(ops, front, op);
    CalledLast(ops, op);
    ops := ops + [op];
  }

  // ----- positional calls behind a lost `drop`

  const LOST := 100

  /** A wrapper that has recorded a `drop` among its actions only. */
  ghost predicate Losing(c: Chain<int>) {
    && c.Lazy? && Built(c) && c.views == [] && c.takeCount.None?
    && |Value(c.inner)| == MANY && |Fused(c, Value(c.inner))| == MANY
    && |ApplyAll(c.actions, Value(c.inner))| == MANY - LOST
  }

  lemma {:induction false} LosingDrop(c: Chain<int>, op: Op<int>)
    requires c.Lazy? && c.filtered && |Value(c)| == MANY && (op == Drop(LOST) || op == DropRight(LOST))
    ensures Losing(Call(c, op))
  {
    WrappingCalls(c, op);
    WholeBackwards(c, Value(c));
    if op.Drop? {
      LosingMade(c, op, false);
    } else {
      LosingMade(Lazy(c, [], true, true, [], None, []), op, true);
    }
  }

  lemma LosingMade(inner: Chain<int>, op: Op<int>, backward: bool)
    requires |Value(inner)| == MANY && (op == Drop(LOST) || op == DropRight(LOST))
    ensures Losing(Lazy(inner, [op], backward, false, [], None, []))
  {
    var d := Lazy(inner, [op], backward, false, [], None, []);
    ApplyAllExtended([], op, Value(inner));
    VisitedAt(d, Value(inner));
    PipeNone(Visited(d, Value(inner)));
  }

  lemma {:induction false} LosingNeutral(c: Chain<int>, op: Op<int>)
    requires Losing(c) && (op.Map? || op.Filter? || op.TakeWhile? || (op.Reverse? && !c.filtered))
    ensures Losing(Call(c, Neutral(op, MANY)))
  {
    var v, d := Value(c.inner), Call(c, Neutral(op, MANY));
    BuiltCall(c, Neutral(op, MANY));
    ApplyAllExtended(c.actions, Neutral(op, MANY), v);
    NeutralApplies(op, MANY, ApplyAll(c.actions, v));
    if op.Reverse? {
      VisitedReversed(c, v);
      PipeMapsCommute(c.iteratees, Visited(c, v), Reverse);
      assert Visited(d, v) == Visited(LazyReverse(c), v);
    } else {
      CalledIteratee(c, Neutral(op, MANY));
      NeutralPushed(c, op, MANY, v);
    }
  }

  /** The counts for which the fused loop and the actions differ in how many elements they leave. */
  function Positioned(op: Op<int>): (r: Op<int>)
    requires op.Take? || op.Drop? || op.TakeRight? || op.DropRight?
    ensures SameMethod(r, op)
  {
    match op
    case Take(_) => Take(950)
    case TakeRight(_) => TakeRight(950)
    case Drop(_) => Drop(50)
    case DropRight(_) => DropRight(50)
  }

  lemma LosingView(c: Chain<int>, op: Op<int>)
    requires Losing(c) && !c.filtered && (op.Take? || op.Drop? || op.TakeRight? || op.DropRight?)
    ensures Value(Call(c, Positioned(op))) != Apply(Positioned(op), Recorded(c))
  {
    var v, view := Value(c.inner), View(ViewOf(c.backward, Positioned(op)), Clamp(Positioned(op).n));
    OpenMethod(c, Positioned(op));
    var d := c.(views := c.views + [view], actions := c.actions + [Positioned(op)]);
    assert Call(c, Positioned(op)) == d;
    LosingFused(c, d, op, v);
    LosingPath(d, v, view);
    PositionedLength(op, Recorded(c));
    assert Value(d) == Fused(d, v);
  }

  lemma PositionedLength(op: Op<int>, s: seq<int>)
    requires (op.Take? || op.Drop? || op.TakeRight? || op.DropRight?) && |s| >= 50
    ensures |Apply(Positioned(op), s)| ==
            if op.Drop? || op.DropRight? then |s| - 50 else if |s| < 950 then |s| else 950
  {
  }

  /** The fused loop runs over the elements that the last call leaves of all. */
  lemma LosingFused(c: Chain<int>, d: Chain<int>, op: Op<int>, v: seq<int>)
    requires c.Lazy? && Built(c) && !c.filtered && |Fused(c, v)| == MANY
    requires op.Take? || op.Drop? || op.TakeRight? || op.DropRight?
    requires d.Lazy? && d.takeCount.None? && d.iteratees == c.iteratees && d.backward == c.backward
    requires d.views == c.views + [View(ViewOf(c.backward, Positioned(op)), Clamp(Positioned(op).n))]
    ensures |Fused(d, v)| == 950
  {
    ViewNarrows(c, v, Positioned(op));
    assert Visited(d, v) == Visited(c.(views := d.views), v);
    PipeMaps(c.iteratees, Visited(c, v));
    PipeMaps(c.iteratees, Visited(d, v));
    PositionedLength(op, Visited(c, v));
  }

  lemma LosingPath(d: Chain<int>, v: seq<int>, view: View)
    requires d.Lazy? && d.views == [] + [view] && |v| == MANY && (view.size == 50 || view.size == 950)
    requires view.size == 50 <==> view.kind.DropView? || view.kind.DropRightView?
    ensures !TakesActions(d, v)
  {
    WindowExtended(MANY, [], view);
  }

  lemma LosingTake(c: Chain<int>)
    requires Losing(c) && c.filtered
    ensures Value(Call(c, Take(950))) != Apply(Take(950), Recorded(c))
  {
    var v, d := Value(c.inner), Call(c, Take(950));
    FusedTake(c, v, 950);
    assert Visited(d, v) == Visited(c, v);
  }

  lemma LosingStart(front: seq<Op<int>>, last: Op<int>) returns (ops: seq<Op<int>>, op: Op<int>)
    requires AfterAll(front).Some? && !AfterAll(front).value.Open? && !AfterAll(front).value.Detached?
    requires last.Drop? || last.DropRight?
    ensures SameShape(ops, front) && SameMethod(op, last)
    ensures Losing(Call(ChainOf(ops), op)) && !Call(ChainOf(ops), op).filtered
    ensures Apply(op, ApplyAll(ops, Numbers())) == Recorded(Call(ChainOf(ops), op))
  {
    var ys;
    ops, ys := NeutralStandsFor(front);
    op := if last.Drop? then Drop(LOST) else DropRight(LOST);
    LosingDrop(ChainOf(ops), op);
    RecordedDrop(ChainOf(ops), AfterAll(front).value, ys, op);
  }

  lemma RecordedDrop(c: Chain<int>, st: State, ys: seq<int>, op: Op<int>)
    requires c.Lazy? && c.filtered && StandsFor(c, st, ys) && (op.Drop? || op.DropRight?)
    ensures Recorded(Call(c, op)) == Apply(op, ys) && !Call(c, op).filtered
  {
    StandsForValue(c, st, ys);
    WrappingCallStandsFor(c, ys, op);
  }

  /** What the actions of a wrapper say. */
  function Recorded(c: Chain<int>): seq<int> {
    if c.Lazy? then ApplyAll(c.actions, Value(c.inner)) else []
  }

  lemma RecordedStep(c: Chain<int>, op: Op<int>)
    requires c.Lazy? && (op.Map? || op.Filter? || op.TakeWhile? || (op.Reverse? && !c.filtered))
    ensures Call(c, Neutral(op, MANY)).filtered == (c.filtered || op.Filter? || op.TakeWhile?)
    ensures Recorded(Call(c, Neutral(op, MANY))) == Apply(Neutral(op, MANY), Recorded(c))
  {
    ApplyAllExtended(c.actions, Neutral(op, MANY), Value(c.inner));
  }

  lemma {:induction false} LosingChain(front: seq<Op<int>>) returns (ops: seq<Op<int>>)
    requires AfterAll(front) == Some(Detached) || AfterAll(front) == Some(DetachedSelecting)
    ensures SameShape(ops, front) && Losing(ChainOf(ops))
    ensures ChainOf(ops).filtered == AfterAll(front).value.DetachedSelecting?
    ensures ApplyAll(ops, Numbers()) == Recorded(ChainOf(ops))
  {
    var rest, last := front[..|front| - 1], front[|front| - 1];
    var op: Op<int>;
    LosingStates(front);
    if last.Drop? || last.DropRight? {
      ops, op := LosingStart(rest, last);
    } else {
      op := Neutral(last, MANY);
      ops := LosingChain(rest);
      LosingNeutral(ChainOf(ops), last);
      RecordedStep(ChainOf(ops), last);
    }
    LosingLonger(ops, front, op);
    ops := ops + [op];
  }

  /** How a chain comes to have lost a drop. */
  lemma LosingStates(front: seq<Op<int>>)
    requires AfterAll(front) == Some(Detached) || AfterAll(front) == Some(DetachedSelecting)
    ensures front != []
    ensures var rest, last := AfterAll(front[..|front| - 1]), front[|front| - 1];
            rest.Some? &&
            if last.Drop? || last.DropRight? then
              AfterAll(front) == Some(Detached) && !rest.value.Open? && !rest.value.Detached?
            else
              && (rest.value.Detached? || rest.value.DetachedSelecting?)
              && (last.Map? || last.Filter? || last.TakeWhile? || (last.Reverse? && rest.value.Detached?))
              && (AfterAll(front).value.DetachedSelecting? <==>
                    rest.value.DetachedSelecting? || last.Filter? || last.TakeWhile?)
  {
  }

  lemma {:induction false} LosingLonger(ops: seq<Op<int>>, front: seq<Op<int>>, op: Op<int>)
    requires front != [] && SameShape(ops, front[..|front| - 1]) && SameMethod(op, front[|front| - 1])
    requires Losing(Call(ChainOf(ops), op)) && Recorded(Call(ChainOf(ops), op)) == Apply(op, ApplyAll(ops, Numbers()))
    ensures SameShape(ops + [op], front) && Losing(ChainOf(ops + [op]))
    ensures ChainOf(ops + [op]) == Call(ChainOf(ops), op)
    ensures Recorded(ChainOf(ops + [op])) == ApplyAll(ops + [op], Numbers())
  {
    ShapedLast(ops, front, op);
    CalledLast(ops, op);
  }

  // ----- every refused shape fails

  /** The first call that the state machine refuses. */
  lemma RefusedCallFails(front: seq<Op<int>>, last: Op<int>) returns (ops: seq<Op<int>>, op: Op<int>)
    requires AfterAll(front).Some? && After(AfterAll(front).value, last).None?
    ensures SameShape(ops, front) && SameMethod(op, last) && ChainOf(ops).Lazy?
    ensures Value(Call(ChainOf(ops), op)) != Apply(op, ApplyAll(ops, Numbers()))
  {
    var st := AfterAll(front).value;
    if last.Filter? {
      var x;
      ops, x := PeekingChain(front);
      PeekingFilter(ChainOf(ops), x);
      op := Filter(z => z != x);
    } else if last.TakeRight? && !st.Detached? {
      ops := TakeRightRefused(front);
      op := TakeRight(2);
    } else {
      ops := LosingChain(front);
      op := Positioned(last);
      if st.Detached? {
        LosingView(ChainOf(ops), last);
      } else {
        LosingTake(ChainOf(ops));
      }
    }
  }

  /** For every refused shape there are calls and an array for which the chain is evaluated wrongly. */
  lemma {:induction false} RefusedShapeFails(shape: seq<Op<int>>) returns (ops: seq<Op<int>>)
    requires AfterAll(shape).None?
    ensures SameShape(ops, shape) && ChainOf(ops).Lazy? && Value(ChainOf(ops)) != ApplyAll(ops, Numbers())
  {
    var front, last := shape[..|shape| - 1], shape[|shape| - 1];
    var op: Op<int>;
    if AfterAll(front).Some? {
      ops, op := RefusedCallFails(front, last);
    } else {
      ops := RefusedShapeFails(front);
      BuiltAll(Numbers(), ops);
      op := StillFails(ChainOf(ops), last, ApplyAll(ops, Numbers()));
    }
    Longer(ops, shape, op);
    ops := ops + [op];
  }

  lemma Longer(ops: seq<Op<int>>, shape: seq<Op<int>>, op: Op<int>)
    requires shape != [] && SameShape(ops, shape[..|shape| - 1])
    requires SameMethod(op, shape[|shape| - 1]) && ChainOf(ops).Lazy?
    requires Value(Call(ChainOf(ops), op)) != Apply(op, ApplyAll(ops, Numbers()))
    ensures SameShape(ops + [op], shape) && ChainOf(ops + [op]).Lazy?
    ensures Value(ChainOf(ops + [op])) != ApplyAll(ops + [op], Numbers())
  {
    CallIsLazy(ChainOf(ops), op);
    ShapedLast(ops, shape, op);
    CalledLast(ops, op);
  }

  lemma CallIsLazy(c: Chain<int>, op: Op<int>)
    requires c.Lazy?
    ensures Call(c, op).Lazy?
  {
  }

  /** Some further call leaves a wrong value wrong. */
  lemma StillFails(c: Chain<int>, last: Op<int>, eager: seq<int>) returns (op: Op<int>)
    requires c.Lazy? && Built(c) && Value(c) != eager
    ensures SameMethod(op, last) && Value(Call(c, op)) != Apply(op, eager)
  {
    var n := |Value(c)| + |Value(c.inner)| + |eager|;
    op := Neutral(last, n);
    NeutralCall(c, last, n);
    NeutralApplies(last, n, eager);
    TurnedApart(Value(c), eager, last.Reverse?);
  }

  /** A shape is evaluated faithfully, for all counts, iteratees and arrays, exactly when the state machine
      accepts it. */
  lemma {:induction false} ShapeExact(shape: seq<Op<int>>)
    ensures AfterAll(shape).Some? <==>
            forall ops, source :: SameShape(ops, shape) ==>
              Value(CallAll(Wrapped(source, []), ops)) == ApplyAll(ops, source)
  {
    if AfterAll(shape).Some? {
      forall ops, source | SameShape(ops, shape)
        ensures Value(CallAll(Wrapped(source, []), ops)) == ApplyAll(ops, source)
      {
        ShapeDecides(shape, ops);
        FusedIsEager(source, ops);
      }
    } else {
      var ops := RefusedShapeFails(shape);
    }
  }
}
