/** Which chains of calls the fused loop of lodash's lazy sequences evaluates faithfully, and why. */
module LazyMeaning {
  import opened Options
  import opened LazySequence

  /** What a wrapper still knows about the calls recorded on it. In the first three states views, direction,
      iteratees and take count represent all of them; in the last two some call lives on as an action only. */
  datatype State =
    | Open              // nothing filtered
    | Selecting         // filtered, no take count
    | Limited           // filtered, then limited by a take count
    | Detached          // a wrapper made by `drop` on a filtered one
    | DetachedSelecting // the same, filtered again

  /** The state after one more call, or `None` when the fused loop may lose or misplace a step. */
  function After<T>(st: State, op: Op<T>): Option<State> {
    match st
    case Open => Some(if op.Filter? || op.TakeWhile? then Selecting else Open)
    case Selecting =>
      if op.TakeRight? then None
      else if op.Drop? || op.DropRight? then Some(Detached)
      else Some(if op.Take? then Limited else Selecting)
    case Limited =>
      if op.TakeRight? || op.Filter? then None
      else if op.Drop? || op.DropRight? then Some(Detached)
      else Some(if op.Reverse? then Selecting else Limited)
    case Detached =>
      if op.Take? || op.Drop? || op.TakeRight? || op.DropRight? then None
      else Some(if op.Filter? || op.TakeWhile? then DetachedSelecting else Detached)
    case DetachedSelecting =>
      if op.Take? || op.TakeRight? then None
      else if op.Drop? || op.DropRight? then Some(Detached)
      else Some(if op.Reverse? then Selecting else DetachedSelecting)
  }

  function AfterAll<T>(ops: seq<Op<T>>): Option<State> {
    if ops == [] then Some(Open)
    else
      var st := AfterAll(ops[..|ops| - 1]);
      if st.None? then None else After(st.value, ops[|ops| - 1])
  }

  // ----- the pipeline of iteratees

  function ApplyIteratee<T>(it: Iteratee<T>, s: seq<T>): seq<T> {
    match it
    case MapIt(f) => Mapped(f, s)
    case FilterIt(p) => Filtered(p, s)
    case WhileIt(p) => Prefix(p, s)
  }

  lemma ThroughExtended<T>(its: seq<Iteratee<T>>, it: Iteratee<T>, i: nat, v: T)
    requires i <= |its|
    ensures match Through(its, i, v)
            case Keep(w) => Through(its + [it], i, v) == Through([it], 0, w)
            case other => Through(its + [it], i, v) == other
    decreases |its| - i
  {
    if i < |its| {
      var w := if its[i].MapIt? then its[i].f(v) else v;
      ThroughExtended(its, it, i + 1, w);
    } else {
      assert (its + [it])[i] == it;
      assert Through(its + [it], i + 1, v) == Keep(v);
      if it.MapIt? { assert Through(its + [it], i + 1, it.f(v)) == Keep(it.f(v)); }
    }
  }

  /** An iteratee pushed last acts on what came through the others. */
  lemma {:induction false} PipeExtended<T>(its: seq<Iteratee<T>>, it: Iteratee<T>, s: seq<T>)
    ensures Pipe(its + [it], s) == ApplyIteratee(it, Pipe(its, s))
  {
    if s != [] {
      ThroughExtended(its, it, 0, s[0]);
      PipeExtended(its, it, s[1..]);
    }
  }

  lemma {:induction false} MappedCapped<T>(f: T -> T, s: seq<T>, n: nat)
    ensures Mapped(f, TakeFirst(s, n)) == TakeFirst(Mapped(f, s), n)
  {
    if s != [] && n > 0 {
      MappedCapped(f, s[1..], n - 1);
      assert n < |s| ==> s[..n][1..] == s[1..][..n - 1];
    }
  }

  lemma {:induction false} PrefixCapped<T>(p: T -> bool, s: seq<T>, n: nat)
    ensures Prefix(p, TakeFirst(s, n)) == TakeFirst(Prefix(p, s), n)
  {
    if s != [] && n > 0 {
      PrefixCapped(p, s[1..], n - 1);
      assert n < |s| ==> s[..n][1..] == s[1..][..n - 1];
    }
  }

  // ----- wrappers that only map

  ghost predicate MapsOnly<T>(its: seq<Iteratee<T>>) {
    forall i :: 0 <= i < |its| ==> its[i].MapIt?
  }

  lemma MapsKeep<T>(its: seq<Iteratee<T>>, i: nat, v: T)
    requires MapsOnly(its) && i <= |its|
    ensures Through(its, i, v).Keep?
    decreases |its| - i
  {
    if i < |its| { MapsKeep(its, i + 1, its[i].f(v)); }
  }

  lemma {:induction false} PipeMaps<T>(its: seq<Iteratee<T>>, s: seq<T>)
    requires MapsOnly(its)
    ensures |Pipe(its, s)| == |s|
  {
    if s != [] {
      MapsKeep(its, 0, s[0]);
      PipeMaps(its, s[1..]);
    }
  }

  lemma {:induction false} PipeMapsAt<T>(its: seq<Iteratee<T>>, s: seq<T>, k: nat)
    requires MapsOnly(its) && k < |s|
    ensures |Pipe(its, s)| == |s| && Through(its, 0, s[k]) == Keep(Pipe(its, s)[k])
  {
    PipeMaps(its, s);
    MapsKeep(its, 0, s[0]);
    if k > 0 { PipeMapsAt(its, s[1..], k - 1); }
  }

  /** The calls that only rearrange positions commute with a pipeline of maps. */
  lemma PipeMapsCommute<T>(its: seq<Iteratee<T>>, s: seq<T>, op: Op<T>)
    requires MapsOnly(its) && (op.Take? || op.Drop? || op.TakeRight? || op.DropRight? || op.Reverse?)
    ensures Pipe(its, Apply(op, s)) == Apply(op, Pipe(its, s))
  {
    PipeMaps(its, s);
    PipeMaps(its, Apply(op, s));
    forall k | 0 <= k < |s| ensures Through(its, 0, s[k]) == Keep(Pipe(its, s)[k]) {
      PipeMapsAt(its, s, k);
    }
    forall k | 0 <= k < |Apply(op, s)| ensures Pipe(its, Apply(op, s))[k] == Apply(op, Pipe(its, s))[k] {
      PipeMapsAt(its, Apply(op, s), k);
    }
  }

  lemma WindowExtended(length: nat, views: seq<View>, view: View)
    ensures Window(length, views + [view]) == Narrow(Window(length, views), view)
  {
  }

  /** The unfiltered wrapper after a positional call. */
  lemma OpenMethod<T>(c: Chain<T>, op: Op<T>)
    requires c.Lazy? && !c.filtered && (op.Take? || op.Drop? || op.TakeRight? || op.DropRight?)
    ensures LazyMethod(c, op) == c.(views := c.views + [View(ViewOf(c.backward, op), Clamp(op.n))])
  {
  }

  /** A view pushed by an unfiltered wrapper does to the visited elements what the call does. */
  lemma ViewNarrows<T>(c: Chain<T>, source: seq<T>, op: Op<T>)
    requires c.Lazy? && (op.Take? || op.Drop? || op.TakeRight? || op.DropRight?)
    ensures Visited(c.(views := c.views + [View(ViewOf(c.backward, op), Clamp(op.n))]), source) ==
            Apply(op, Visited(c, source))
  {
    var view := View(ViewOf(c.backward, op), Clamp(op.n));
    var d := c.(views := c.views + [view]);
    VisitedAt(c, source);
    VisitedAt(d, source);
    WindowExtended(|source|, c.views, view);
    WindowShifts(Visited(c, source), Visited(d, source), source, c.backward, Window(|source|, c.views),
                 Window(|source|, d.views), op);
  }

  function ViewOf<T>(backward: bool, op: Op<T>): ViewType
    requires op.Take? || op.Drop? || op.TakeRight? || op.DropRight?
  {
    if op.Take? then (if backward then TakeRightView else TakeView)
    else if op.Drop? then (if backward then DropRightView else DropView)
    else if op.TakeRight? then (if backward then TakeView else TakeRightView)
    else (if backward then DropView else DropRightView)
  }

  /** The same, element by element. */
  lemma WindowShifts<T>(s: seq<T>, t: seq<T>, source: seq<T>, backward: bool, w: Bounds, w': Bounds, op: Op<T>)
    requires op.Take? || op.Drop? || op.TakeRight? || op.DropRight?
    requires 0 <= w.lo && w.hi <= |source| && 0 <= w'.lo && w'.hi <= |source|
    requires w' == Narrow(w, View(ViewOf(backward, op), Clamp(op.n)))
    requires Covers(s, source, backward, w) && Covers(t, source, backward, w')
    ensures t == Apply(op, s)
  {
    var r := Apply(op, s);
    assert |t| == |r|;
    forall k | 0 <= k < |t| ensures t[k] == r[k] {
      assert r[k] == s[k + |s| - |t|] || r[k] == s[k];
    }
  }

  // ----- the invariant of a chain

  /** Wrapper `c` in state `st` stands for the sequence `ys`. */
  ghost predicate StandsFor<T>(c: Chain<T>, st: State, ys: seq<T>) {
    match c
    case Wrapped(source, pending) => st == Open && ApplyAll(pending, source) == ys
    case Lazy(inner, _, _, _, _, _, _) => Represents(c, Value(inner), st, ys)
  }

  /** What a lazy wrapper must satisfy, `v` being the value of the wrapper inside it. */
  ghost predicate Represents<T>(c: Chain<T>, v: seq<T>, st: State, ys: seq<T>)
    requires c.Lazy?
  {
    && ApplyAll(c.actions, v) == ys
    && c.filtered == !(st.Open? || st.Detached?)
    && (c.takeCount.Some? ==> st == Limited)
    && (if st.Detached? || st.DetachedSelecting? then c.views == []
        else Fused(c, v) == ys && (st == Open ==> MapsOnly(c.iteratees)))
  }

  lemma StandsForValue<T>(c: Chain<T>, st: State, ys: seq<T>)
    requires StandsFor(c, st, ys)
    ensures Value(c) == ys
  {
  }

  lemma {:induction false} PipeNone<T>(s: seq<T>)
    ensures Pipe([], s) == s
  {
    if s != [] { PipeNone(s[1..]); }
  }

  lemma ApplyAllExtended<T>(ops: seq<Op<T>>, op: Op<T>, s: seq<T>)
    ensures ApplyAll(ops + [op], s) == Apply(op, ApplyAll(ops, s))
  {
  }

  /** A new wrapper around a faithful one, as the first lazy call makes it. */
  lemma NewLazyStandsFor<T>(c: Chain<T>, st: State, ys: seq<T>)
    requires StandsFor(c, st, ys)
    ensures StandsFor(NewLazy(c), Open, ys)
  {
    StandsForValue(c, st, ys);
    PipeNone(Visited(NewLazy(c), ys));
  }

  /** Iteratees keep the representation, except a filter behind a take count. */
  lemma FusedIteratee<T>(c: Chain<T>, source: seq<T>, it: Iteratee<T>)
    requires c.Lazy? && (it.FilterIt? ==> c.takeCount.None?)
    ensures Fused(LazyIteratee(c, it), source) == ApplyIteratee(it, Fused(c, source))
  {
    var s := Visited(c, source);
    assert Visited(LazyIteratee(c, it), source) == s;
    PipeExtended(c.iteratees, it, s);
    if c.takeCount.Some? {
      match it
      case MapIt(f) => MappedCapped(f, Pipe(c.iteratees, s), c.takeCount.value);
      case WhileIt(p) => PrefixCapped(p, Pipe(c.iteratees, s), c.takeCount.value);
    }
  }

  lemma FusedTake<T>(c: Chain<T>, source: seq<T>, n: int)
    requires c.Lazy? && c.filtered
    ensures Fused(LazyTake(c, n), source) == TakeFirst(Fused(c, source), Clamp(n))
  {
  }

  lemma IterateeCallStandsFor<T>(c: Chain<T>, st: State, ys: seq<T>, op: Op<T>)
    requires c.Lazy? && StandsFor(c, st, ys) && After(st, op).Some? && (op.Map? || op.Filter? || op.TakeWhile?)
    ensures StandsFor(Call(c, op), After(st, op).value, Apply(op, ys))
  {
    IterateeCallRepresents(c, Value(c.inner), st, ys, op);
    CalledIteratee(c, op);
  }

  lemma IterateeCallRepresents<T>(c: Chain<T>, v: seq<T>, st: State, ys: seq<T>, op: Op<T>)
    requires c.Lazy? && Represents(c, v, st, ys) && After(st, op).Some? && (op.Map? || op.Filter? || op.TakeWhile?)
    ensures Call(c, op).Lazy? && Represents(Call(c, op), v, After(st, op).value, Apply(op, ys))
  {
    CalledIteratee(c, op);
    ApplyAllExtended(c.actions, op, v);
    if !(st.Detached? || st.DetachedSelecting?) {
      FusedIterateeCall(c, v, op);
    }
    RepresentsMore(c, Call(c, op), v, st, op, Apply(op, ys));
  }

  /** An iteratee pushed on a wrapper leaves the rest of it alone. */
  lemma RepresentsMore<T>(c: Chain<T>, d: Chain<T>, v: seq<T>, st: State, op: Op<T>, ys: seq<T>)
    requires c.Lazy? && d.Lazy? && After(st, op).Some? && (op.Map? || op.Filter? || op.TakeWhile?)
    requires c.filtered == !(st.Open? || st.Detached?) && d.filtered == (c.filtered || !op.Map?)
    requires d.takeCount == c.takeCount && (c.takeCount.Some? ==> st == Limited) && d.views == c.views
    requires (st.Detached? || st.DetachedSelecting? ==> c.views == []) && (st == Open ==> MapsOnly(c.iteratees))
    requires d.iteratees == c.iteratees + [IterateeOf(op)]
    requires ApplyAll(d.actions, v) == ys && (st.Detached? || st.DetachedSelecting? || Fused(d, v) == ys)
    ensures Represents(d, v, After(st, op).value, ys)
  {
  }

  lemma CalledIteratee<T>(c: Chain<T>, op: Op<T>)
    requires c.Lazy? && (op.Map? || op.Filter? || op.TakeWhile?)
    ensures Call(c, op) == c.(iteratees := c.iteratees + [IterateeOf(op)], filtered := c.filtered || !op.Map?,
                              actions := c.actions + [op])
  {
  }

  lemma FusedIterateeCall<T>(c: Chain<T>, v: seq<T>, op: Op<T>)
    requires c.Lazy? && (op.Map? || op.Filter? || op.TakeWhile?) && (op.Filter? ==> c.takeCount.None?)
    ensures Fused(Call(c, op), v) == Apply(op, Fused(c, v))
  {
    CalledIteratee(c, op);
    assert Visited(Call(c, op), v) == Visited(LazyIteratee(c, IterateeOf(op)), v);
    FusedIteratee(c, v, IterateeOf(op));
  }

  function IterateeOf<T>(op: Op<T>): Iteratee<T>
    requires op.Map? || op.Filter? || op.TakeWhile?
  {
    match op
    case Map(f) => MapIt(f)
    case Filter(p) => FilterIt(p)
    case TakeWhile(p) => WhileIt(p)
  }

  lemma OpenCallStandsFor<T>(c: Chain<T>, ys: seq<T>, op: Op<T>)
    requires c.Lazy? && StandsFor(c, Open, ys)
    requires op.Take? || op.Drop? || op.TakeRight? || op.DropRight? || op.Reverse?
    ensures StandsFor(Call(c, op), Open, Apply(op, ys))
  {
    ApplyAllExtended(c.actions, op, Value(c.inner));
    PipeMapsCommute(c.iteratees, Visited(c, Value(c.inner)), op);
    if op.Reverse? {
      VisitedReversed(c, Value(c.inner));
    } else {
      OpenMethod(c, op);
      ViewNarrows(c, Value(c.inner), op);
    }
  }

  lemma VisitedReversed<T>(c: Chain<T>, source: seq<T>)
    requires c.Lazy? && !c.filtered
    ensures Visited(LazyReverse(c), source) == Reversed(Visited(c, source))
  {
    VisitedAt(c, source);
    VisitedAt(LazyReverse(c), source);
  }

  lemma {:induction false} WrappingCallStandsFor<T>(c: Chain<T>, ys: seq<T>, op: Op<T>)
    requires c.Lazy? && c.filtered && Value(c) == ys && (op.Reverse? || op.Drop? || op.DropRight?)
    ensures StandsFor(Call(c, op), if op.Reverse? then Selecting else Detached, Apply(op, ys))
  {
    WrappingCalls(c, op);
    match op
    case Reverse => ReverseWrapper(c, ys);
    case Drop(n) => DropWrapper(c, ys, op, false);
    case DropRight(n) =>
      WholeBackwards(c, ys);
      DropWrapper(Lazy(c, [], true, true, [], None, []), ys, op, true);
  }

  lemma ReverseWrapper<T>(c: Chain<T>, ys: seq<T>)
    requires c.Lazy? && Value(c) == ys
    ensures StandsFor(Lazy(c, [Reverse], true, true, [], None, []), Selecting, Reversed(ys))
  {
    ApplyAllExtended([], Reverse, ys);
    FusedBackwards(c, ys);
  }

  lemma FusedBackwards<T>(c: Chain<T>, ys: seq<T>)
    ensures Fused(Lazy(c, [Reverse], true, true, [], None, []), ys) == Reversed(ys)
  {
    PipeNone(Reversed(ys));
    assert Visited(Lazy(c, [Reverse], true, true, [], None, []), ys) == Reversed(ys);
  }

  lemma DropWrapper<T>(inner: Chain<T>, ys: seq<T>, op: Op<T>, backward: bool)
    requires Value(inner) == ys
    ensures StandsFor(Lazy(inner, [op], backward, false, [], None, []), Detached, Apply(op, ys))
  {
    ApplyAllExtended([], op, ys);
  }

  /** The wrappers that these calls make. */
  lemma WrappingCalls<T>(c: Chain<T>, op: Op<T>)
    requires c.Lazy? && c.filtered
    ensures op.Reverse? ==> Call(c, op) == Lazy(c, [op], true, true, [], None, [])
    ensures op.Drop? ==> Call(c, op) == Lazy(c, [op], false, false, [], None, [])
    ensures op.DropRight? ==>
              Call(c, op) == Lazy(Lazy(c, [], true, true, [], None, []), [op], true, false, [], None, [])
    ensures op.TakeRight? ==>
              Call(c, op) == Lazy(Lazy(c, [], true, true, [], Some(Clamp(op.n)), []), [op], true, true, [], None, [])
  {
  }

  /** A wrapper that would read a whole value backwards takes the eager path, where it has no action. */
  lemma WholeBackwards<T>(c: Chain<T>, ys: seq<T>)
    requires c.Lazy? && Value(c) == ys
    ensures Value(Lazy(c, [], true, true, [], None, [])) == ys
  {
    assert TakesActions(Lazy(c, [], true, true, [], None, []), ys);
  }

  lemma DetachedCallStandsFor<T>(c: Chain<T>, ys: seq<T>, op: Op<T>)
    requires c.Lazy? && StandsFor(c, Detached, ys) && op.Reverse?
    ensures StandsFor(Call(c, op), Detached, Apply(op, ys))
  {
    ApplyAllExtended(c.actions, op, Value(c.inner));
  }

  lemma TakeCallStandsFor<T>(c: Chain<T>, st: State, ys: seq<T>, op: Op<T>)
    requires c.Lazy? && StandsFor(c, st, ys) && (st.Selecting? || st.Limited?) && op.Take?
    ensures StandsFor(Call(c, op), Limited, Apply(op, ys))
  {
    TakeCallRepresents(c, Value(c.inner), st, ys, op);
    assert Call(c, op).inner == c.inner;
  }

  lemma {:induction false} TakeCallRepresents<T>(c: Chain<T>, v: seq<T>, st: State, ys: seq<T>, op: Op<T>)
    requires c.Lazy? && Represents(c, v, st, ys) && (st.Selecting? || st.Limited?) && op.Take?
    ensures Call(c, op).Lazy? && Represents(Call(c, op), v, Limited, Apply(op, ys))
  {
    ApplyAllExtended(c.actions, op, v);
    FusedTake(c, v, op.n);
    assert Visited(Call(c, op), v) == Visited(c, v);
  }

  /** One lazy call that its state allows. */
  lemma LazyCallStandsFor<T>(c: Chain<T>, st: State, ys: seq<T>, op: Op<T>)
    requires c.Lazy? && StandsFor(c, st, ys) && After(st, op).Some?
    ensures StandsFor(Call(c, op), After(st, op).value, Apply(op, ys))
  {
    if op.Map? || op.Filter? || op.TakeWhile? {
      IterateeCallStandsFor(c, st, ys, op);
    } else if st.Open? {
      OpenCallStandsFor(c, ys, op);
    } else if st.Detached? {
      DetachedCallStandsFor(c, ys, op);
    } else if op.Take? {
      TakeCallStandsFor(c, st, ys, op);
    } else {
      StandsForValue(c, st, ys);
      WrappingCallStandsFor(c, ys, op);
    }
  }

  lemma CallStandsFor<T>(c: Chain<T>, st: State, ys: seq<T>, op: Op<T>)
    requires StandsFor(c, st, ys) && After(st, op).Some?
    ensures StandsFor(Call(c, op), After(st, op).value, Apply(op, ys))
  {
    if c.Lazy? {
      LazyCallStandsFor(c, st, ys, op);
    } else if op.Reverse? {
      ApplyAllExtended(c.pending, op, c.source);
    } else {
      NewLazyStandsFor(c, st, ys);
      LazyCallStandsFor(NewLazy(c), Open, ys, op);
    }
  }

  /** The main theorem: a chain whose states are all defined evaluates, by either return path of `lazyValue`,
      to what its calls give one by one. */
  lemma {:induction false} FusedIsEager<T>(source: seq<T>, ops: seq<Op<T>>)
    requires AfterAll(ops).Some?
    ensures StandsFor(CallAll(Wrapped(source, []), ops), AfterAll(ops).value, ApplyAll(ops, source))
    ensures Value(CallAll(Wrapped(source, []), ops)) == ApplyAll(ops, source)
  {
    if ops != [] {
      var n := |ops| - 1;
      FusedIsEager(source, ops[..n]);
      var c := CallAll(Wrapped(source, []), ops[..n]);
      CallStandsFor(c, AfterAll(ops[..n]).value, ApplyAll(ops[..n], source), ops[n]);
    }
    StandsForValue(CallAll(Wrapped(source, []), ops), AfterAll(ops).value, ApplyAll(ops, source));
  }

  // ----- chains of the safe form

  predicate Positional<T>(op: Op<T>) {
    op.Map? || op.Take? || op.Drop? || op.TakeRight? || op.DropRight? || op.Reverse?
  }

  /** Positional calls and maps, then maps and filters, then maps, `takeWhile` and `take`. */
  ghost predicate SafeForm<T>(ops: seq<Op<T>>, i: nat, j: nat) {
    && i <= j <= |ops|
    && (forall k :: 0 <= k < i ==> Positional(ops[k]))
    && (forall k :: i <= k < j ==> ops[k].Map? || ops[k].Filter? || ops[k].TakeWhile?)
    && (forall k :: j <= k < |ops| ==> ops[k].Map? || ops[k].TakeWhile? || ops[k].Take?)
  }

  lemma {:induction false} SafeFormStates<T>(ops: seq<Op<T>>, i: nat, j: nat)
    requires SafeForm(ops, i, j)
    ensures var st := AfterAll(ops);
            && (st == Some(Open) || st == Some(Selecting) || st == Some(Limited))
            && (|ops| <= i ==> st == Some(Open))
            && (|ops| <= j ==> st != Some(Limited))
  {
    if ops != [] {
      var n := |ops| - 1;
      SafeFormStates(ops[..n], if i <= n then i else n, if j <= n then j else n);
    }
  }

  /** Every chain of the safe form, on every array and with all iteratees, agrees with its eager meaning. */
  lemma SafeFormIsEager<T>(source: seq<T>, ops: seq<Op<T>>, i: nat, j: nat)
    requires SafeForm(ops, i, j)
    ensures Value(CallAll(Wrapped(source, []), ops)) == ApplyAll(ops, source)
  {
    SafeFormStates(ops, i, j);
    FusedIsEager(source, ops);
  }

  // ----- the refused calls: what they really return

  /** The wrapper in the middle of `reverse().take(n).reverse()` on a filtered wrapper of value `ys`. */
  lemma TakingBackwards<T>(c: Chain<T>, ys: seq<T>, n: nat)
    requires c.Lazy? && Value(c) == ys
    ensures Value(Lazy(c, [], true, true, [], Some(n), [])) ==
            if |ys| < LARGE_ARRAY_SIZE || |ys| <= n then ys else Reversed(TakeLast(ys, n))
  {
    var taking := Lazy(c, [], true, true, [], Some(n), []);
    assert Visited(taking, ys) == Reversed(ys);
    PipeNone(Reversed(ys));
    assert TakesActions(taking, ys) <==> |ys| < LARGE_ARRAY_SIZE || |ys| <= n;
    LastBackwards(ys, n);
  }

  lemma LastBackwards<T>(ys: seq<T>, n: nat)
    ensures n < |ys| ==> Reversed(TakeLast(ys, n)) == TakeFirst(Reversed(ys), n)
  {
  }

  /** `takeRight` on a filtered wrapper comes out backwards once the array is large and longer than `n`. */
  lemma {:induction false} TakeRightWhenFiltered<T>(c: Chain<T>, st: State, ys: seq<T>, n: int)
    requires c.Lazy? && c.filtered && StandsFor(c, st, ys)
    ensures Value(Call(c, TakeRight(n))) ==
            if |ys| < LARGE_ARRAY_SIZE || |ys| <= Clamp(n) then Apply(TakeRight(n), ys)
            else Reversed(Apply(TakeRight(n), ys))
  {
    StandsForValue(c, st, ys);
    TakeRightValue(c, ys, n);
  }

  lemma {:induction false} TakeRightValue<T>(c: Chain<T>, ys: seq<T>, n: int)
    requires c.Lazy? && c.filtered && Value(c) == ys
    ensures Value(Call(c, TakeRight(n))) ==
            if |ys| < LARGE_ARRAY_SIZE || |ys| <= Clamp(n) then Apply(TakeRight(n), ys)
            else Reversed(Apply(TakeRight(n), ys))
  {
    var taking := Lazy(c, [], true, true, [], Some(Clamp(n)), []);
    TakingBackwards(c, ys, Clamp(n));
    WrappingCalls(c, TakeRight(n));
    WholeActions(taking, TakeRight(n));
    TakenAgain(ys, Value(taking), n);
  }

  lemma TakenAgain<T>(ys: seq<T>, taken: seq<T>, n: int)
    requires taken == if |ys| < LARGE_ARRAY_SIZE || |ys| <= Clamp(n) then ys else Reversed(TakeLast(ys, Clamp(n)))
    ensures Apply(TakeRight(n), taken) ==
            if |ys| < LARGE_ARRAY_SIZE || |ys| <= Clamp(n) then Apply(TakeRight(n), ys)
            else Reversed(Apply(TakeRight(n), ys))
  {
    TakenTwice(ys, Clamp(n));
  }

  /** A backward wrapper without views and take count applies its one action. */
  lemma WholeActions<T>(inner: Chain<T>, op: Op<T>)
    ensures Value(Lazy(inner, [op], true, true, [], None, [])) == Apply(op, Value(inner))
  {
    ApplyAllExtended([], op, Value(inner));
    assert TakesActions(Lazy(inner, [op], true, true, [], None, []), Value(inner));
  }

  lemma TakenTwice<T>(ys: seq<T>, n: nat)
    ensures TakeLast(Reversed(TakeLast(ys, n)), n) == Reversed(TakeLast(ys, n))
  {
  }

  predicate Palindrome<T(==)>(s: seq<T>) {
    forall i :: 0 <= i < |s| ==> s[i] == s[|s| - 1 - i]
  }

  /** `takeRight` on a filtered wrapper is right exactly when the array is small, or not longer than `n`, or its last
      `n` elements read the same backwards. */
  lemma TakeRightExact<T>(c: Chain<T>, st: State, ys: seq<T>, n: int)
    requires c.Lazy? && c.filtered && StandsFor(c, st, ys)
    ensures Value(Call(c, TakeRight(n))) == Apply(TakeRight(n), ys) <==>
            |ys| < LARGE_ARRAY_SIZE || |ys| <= Clamp(n) || Palindrome(TakeLast(ys, Clamp(n)))
  {
    TakeRightWhenFiltered(c, st, ys, n);
    RightOrReversed(Value(Call(c, TakeRight(n))), TakeLast(ys, Clamp(n)), |ys| < LARGE_ARRAY_SIZE || |ys| <= Clamp(n));
  }

  lemma RightOrReversed<T>(value: seq<T>, taken: seq<T>, right: bool)
    requires value == if right then taken else Reversed(taken)
    ensures value == taken <==> right || Palindrome(taken)
  {
    if Palindrome(taken) {
      assert Reversed(taken) == taken;
    } else {
      var i :| 0 <= i < |taken| && taken[i] != taken[|taken| - 1 - i];
      assert Reversed(taken)[i] != taken[i];
    }
  }

  /** `filter` behind a take count is counted before the limit instead of after it. */
  lemma FilterWhenLimited<T>(c: Chain<T>, ys: seq<T>, p: T -> bool)
    requires c.Lazy? && StandsFor(c, Limited, ys)
    ensures var source := Value(c.inner);
            Value(Call(c, Filter(p))) ==
            if TakesActions(c, source) || c.takeCount.None? then Filtered(p, ys)
            else TakeFirst(Filtered(p, Pipe(c.iteratees, Visited(c, source))), c.takeCount.value)
  {
    var source := Value(c.inner);
    ApplyAllExtended(c.actions, Filter(p), source);
    var d := LazyIteratee(c, FilterIt(p));
    assert Visited(d, source) == Visited(c, source);
    PipeExtended(c.iteratees, FilterIt(p), Visited(c, source));
  }

  /** A view on a wrapper made by `drop` skips the drop. */
  lemma ViewWhenDetached<T>(c: Chain<T>, st: State, ys: seq<T>, m: int, op: Op<T>)
    requires c.Lazy? && c.filtered && StandsFor(c, st, ys)
    requires op.Take? || op.Drop? || op.TakeRight? || op.DropRight?
    ensures Value(Call(Call(c, Drop(m)), op)) ==
            if TakesActions(Lazy(c, [Drop(m), op], false, false, [], None, [View(ViewOf(false, op), Clamp(op.n))]), ys)
            then Apply(op, Apply(Drop(m), ys)) else Apply(op, ys)
  {
    StandsForValue(c, st, ys);
    DroppedView(c, m, op);
    ApplyTwice(Drop(m), op, ys);
    FusedView(c, [Drop(m), op], ys, op);
  }

  /** The wrapper that a positional call behind a `drop` makes. */
  lemma DroppedView<T>(c: Chain<T>, m: int, op: Op<T>)
    requires c.Lazy? && c.filtered && (op.Take? || op.Drop? || op.TakeRight? || op.DropRight?)
    ensures Call(Call(c, Drop(m)), op) ==
            Lazy(c, [Drop(m), op], false, false, [], None, [View(ViewOf(false, op), Clamp(op.n))])
  {
    assert Call(c, Drop(m)) == NewLazy(c).(actions := [Drop(m)]);
    OpenMethod(NewLazy(c).(actions := [Drop(m)]), op);
  }

  /** Its fused loop applies the view only. */
  lemma FusedView<T>(c: Chain<T>, actions: seq<Op<T>>, ys: seq<T>, op: Op<T>)
    requires op.Take? || op.Drop? || op.TakeRight? || op.DropRight?
    ensures Fused(Lazy(c, actions, false, false, [], None, [View(ViewOf(false, op), Clamp(op.n))]), ys) == Apply(op, ys)
  {
    var plain := Lazy(c, actions, false, false, [], None, []);
    ViewNarrows(plain, ys, op);
    assert Visited(plain, ys) == ys;
    assert [] + [View(ViewOf(false, op), Clamp(op.n))] == [View(ViewOf(false, op), Clamp(op.n))];
    PipeNone(Apply(op, ys));
  }

  lemma ApplyTwice<T>(a: Op<T>, b: Op<T>, s: seq<T>)
    ensures ApplyAll([a, b], s) == Apply(b, Apply(a, s))
  {
    assert [a, b] == [a] + [b] && [a] == [] + [a];
    ApplyAllExtended([], a, s);
    ApplyAllExtended([a], b, s);
  }

  // ----- exactly when a refused call is harmless

  /** Can some element cut off by a count of `n` be told from one kept? */
  ghost predicate Distinguishable<T>(piped: seq<T>, n: nat) {
    exists i, j :: 0 <= i < n <= j < |piped| && piped[i] != piped[j]
  }

  /** A filter behind a take count is harmless for every predicate exactly when the wrapper takes the eager path, or
      the elements cut off by the count cannot be told from those kept. */
  lemma {:induction false} FilterWhenLimitedExact<T(!new)>(c: Chain<T>, ys: seq<T>)
    requires c.Lazy? && StandsFor(c, Limited, ys)
    ensures (forall p: T -> bool :: Value(Call(c, Filter(p))) == Filtered(p, ys)) <==>
            TakesActions(c, Value(c.inner)) || !Distinguishable(Pipe(c.iteratees, Visited(c, Value(c.inner))), |ys|)
  {
    var piped := Pipe(c.iteratees, Visited(c, Value(c.inner)));
    if TakesActions(c, Value(c.inner)) || !Distinguishable(piped, |ys|) {
      forall p: T -> bool ensures Value(Call(c, Filter(p))) == Filtered(p, ys) {
        FilterHarmless(c, ys, p);
      }
    } else {
      var i, j :| 0 <= i < |ys| <= j < |piped| && piped[i] != piped[j];
      var p := FilterHarmful(c, ys, piped, i, j);
    }
  }

  lemma {:induction false} FilterHarmless<T>(c: Chain<T>, ys: seq<T>, p: T -> bool)
    requires c.Lazy? && StandsFor(c, Limited, ys)
    requires TakesActions(c, Value(c.inner)) || !Distinguishable(Pipe(c.iteratees, Visited(c, Value(c.inner))), |ys|)
    ensures Value(Call(c, Filter(p))) == Filtered(p, ys)
  {
    FilterWhenLimited(c, ys, p);
    if !TakesActions(c, Value(c.inner)) && c.takeCount.Some? {
      LateFilterHarmless(Pipe(c.iteratees, Visited(c, Value(c.inner))), ys, c.takeCount.value, p);
    }
  }

  lemma LateFilterHarmless<T>(piped: seq<T>, ys: seq<T>, n: nat, p: T -> bool)
    requires ys == TakeFirst(piped, n) && !Distinguishable(piped, |ys|)
    ensures TakeFirst(Filtered(p, piped), n) == Filtered(p, ys)
  {
    if |ys| < |piped| {
      FilteredUniform(p, piped, |ys|);
    }
  }

  lemma FilterHarmful<T>(c: Chain<T>, ys: seq<T>, piped: seq<T>, i: nat, j: nat) returns (p: T -> bool)
    requires c.Lazy? && StandsFor(c, Limited, ys) && !TakesActions(c, Value(c.inner))
    requires piped == Pipe(c.iteratees, Visited(c, Value(c.inner)))
    requires i < |ys| <= j < |piped| && piped[i] != piped[j]
    ensures Value(Call(c, Filter(p))) != Filtered(p, ys)
  {
    p := v => v != piped[i];
    FilterWhenLimited(c, ys, p);
    assert c.takeCount.Some? && ys == TakeFirst(piped, c.takeCount.value);
    assert c.takeCount.value == |ys| && ys == piped[..|ys|];
    FilteredDrops(p, piped, |ys|, i, j);
  }

  lemma {:induction false} FilteredConcat<T>(p: T -> bool, a: seq<T>, b: seq<T>)
    ensures Filtered(p, a + b) == Filtered(p, a) + Filtered(p, b)
  {
    if a == [] {
      assert a + b == b;
    } else {
      var s := a + b;
      assert s[0] == a[0] && s[1..] == a[1..] + b;
      FilteredConcat(p, a[1..], b);
      var head := if p(a[0]) then [a[0]] else [];
      assert Filtered(p, s) == head + (Filtered(p, a[1..]) + Filtered(p, b));
      assert Filtered(p, a) == head + Filtered(p, a[1..]);
    }
  }

  lemma {:induction false} FilteredFull<T>(p: T -> bool, s: seq<T>)
    ensures |Filtered(p, s)| == |s| <==> forall i :: 0 <= i < |s| ==> p(s[i])
    ensures Filtered(p, s) == [] <==> forall i :: 0 <= i < |s| ==> !p(s[i])
    ensures |Filtered(p, s)| == |s| ==> Filtered(p, s) == s
  {
    if s != [] {
      FilteredFull(p, s[1..]);
      assert forall i :: 0 < i < |s| ==> s[i] == s[1..][i - 1];
      assert s == [s[0]] + s[1..];
    }
  }

  lemma {:induction false} FilteredConstant<T>(p: T -> bool, s: seq<T>, v: T)
    requires forall i :: 0 <= i < |s| ==> s[i] == v
    ensures Filtered(p, s) == if p(v) then s else []
  {
    if s != [] {
      FilteredConstant(p, s[1..], v);
      assert s == [v] + s[1..];
    }
  }

  lemma FilteredUniform<T>(p: T -> bool, s: seq<T>, n: nat)
    requires n < |s| && forall i, j :: 0 <= i < n <= j < |s| ==> s[i] == s[j]
    ensures TakeFirst(Filtered(p, s), n) == Filtered(p, s[..n])
  {
    if n > 0 {
      var v := s[n];
      forall i | 0 <= i < |s| ensures s[i] == v {
        assert s[0] == s[n];
        if i >= n { assert s[0] == s[i]; }
      }
      FilteredConstant(p, s, v);
      FilteredConstant(p, s[..n], v);
    }
  }

  lemma FilteredDrops<T>(p: T -> bool, s: seq<T>, n: nat, i: nat, j: nat)
    requires i < n <= j < |s| && !p(s[i]) && p(s[j])
    ensures TakeFirst(Filtered(p, s), n) != Filtered(p, s[..n])
  {
    assert s == s[..n] + s[n..];
    FilteredConcat(p, s[..n], s[n..]);
    FilteredFull(p, s[..n]);
    FilteredFull(p, s[n..]);
    assert !p(s[..n][i]) && p(s[n..][j - n]);
  }

  /** A second `drop` loses the first one exactly when the array is large and the second drops some but not all. */
  lemma DropTwiceExact<T>(c: Chain<T>, st: State, ys: seq<T>, m: int, n: int)
    requires c.Lazy? && c.filtered && StandsFor(c, st, ys) && m > 0
    ensures Value(Call(Call(c, Drop(m)), Drop(n))) == Apply(Drop(n), Apply(Drop(m), ys)) <==>
            |ys| < LARGE_ARRAY_SIZE || n <= 0 || |ys| <= n
  {
    ViewWhenDetached(c, st, ys, m, Drop(n));
    WindowExtended(|ys|, [], View(DropView, Clamp(n)));
    assert [View(DropView, Clamp(n))] == [] + [View(DropView, Clamp(n))];
    assert Window(|ys|, [View(DropView, Clamp(n))]) == Bounds(Clamp(n), |ys|);
    var viewed := Lazy(c, [Drop(m), Drop(n)], false, false, [], None, [View(DropView, Clamp(n))]);
    assert TakesActions(viewed, ys) <==> |ys| < LARGE_ARRAY_SIZE || n <= 0;
    DropLengths(ys, Clamp(m), Clamp(n));
  }

  lemma DropLengths<T>(ys: seq<T>, m: nat, n: nat)
    ensures n < |ys| && m > 0 ==> |DropFirst(DropFirst(ys, m), n)| < |DropFirst(ys, n)|
    ensures |ys| <= n ==> DropFirst(DropFirst(ys, m), n) == DropFirst(ys, n)
  {
  }

  /** A chain on 200 numbers with a filter that keeps them all. */
  lemma Witness() returns (c: Chain<int>, ys: seq<int>)
    ensures |ys| == LARGE_ARRAY_SIZE && forall i :: 0 <= i < |ys| ==> ys[i] == i
    ensures c.Lazy? && c.filtered && c.views == [] && !c.backward && c.takeCount.None?
    ensures StandsFor(c, Selecting, ys) && Value(c.inner) == ys
  {
    ys := seq(LARGE_ARRAY_SIZE, i => i);
    var ops: seq<Op<int>> := [Filter(v => true)];
    c := CallAll(Wrapped(ys, []), ops);
    assert ops[..0] == [];
    FusedIsEager(ys, ops);
    FilteredFull((v: int) => true, ys);
  }

  /** The smallest chains the state machine refuses do lose a step. */
  lemma RefusedCallsFail() returns (c: Chain<int>, ys: seq<int>)
    ensures StandsFor(c, Selecting, ys) && c.Lazy?
    ensures Value(Call(c, TakeRight(2))) != Apply(TakeRight(2), ys)
    ensures Value(Call(Call(c, Drop(1)), Drop(1))) != Apply(Drop(1), Apply(Drop(1), ys))
    ensures !forall p: int -> bool :: Value(Call(Call(c, Take(1)), Filter(p))) == Filtered(p, Apply(Take(1), ys))
  {
    c, ys := Witness();
    TakeRightFails(c, ys);
    DropTwiceExact(c, Selecting, ys, 1, 1);
    LimitedFails(c, ys);
  }

  lemma TakeRightFails(c: Chain<int>, ys: seq<int>)
    requires |ys| == LARGE_ARRAY_SIZE && forall i :: 0 <= i < |ys| ==> ys[i] == i
    requires c.Lazy? && c.filtered && StandsFor(c, Selecting, ys)
    ensures Value(Call(c, TakeRight(2))) != Apply(TakeRight(2), ys)
  {
    TakeRightExact(c, Selecting, ys, 2);
    LastTwoDiffer(ys);
  }

  lemma LastTwoDiffer(ys: seq<int>)
    requires |ys| >= 2 && ys[|ys| - 2] != ys[|ys| - 1]
    ensures !Palindrome(TakeLast(ys, 2))
  {
    var last := TakeLast(ys, 2);
    if |ys| == 2 { assert last == ys; }
    assert last[0] == ys[|ys| - 2] && last[1] == ys[|ys| - 1];
  }

  lemma LimitedFails(c: Chain<int>, ys: seq<int>)
    requires |ys| == LARGE_ARRAY_SIZE && forall i :: 0 <= i < |ys| ==> ys[i] == i
    requires c.Lazy? && c.filtered && c.views == [] && !c.backward && c.takeCount.None?
    requires StandsFor(c, Selecting, ys) && Value(c.inner) == ys
    ensures !forall p: int -> bool :: Value(Call(Call(c, Take(1)), Filter(p))) == Filtered(p, Apply(Take(1), ys))
  {
    CallStandsFor(c, Selecting, ys, Take(1));
    var limited := Call(c, Take(1));
    assert limited == c.(takeCount := Some(1), actions := c.actions + [Take(1)]);
    assert Pipe(c.iteratees, Visited(c, ys)) == ys;
    assert Visited(limited, ys) == Visited(c, ys);
    assert ys[0] != ys[1];
    assert Distinguishable(ys, 1);
    FilterWhenLimitedExact(limited, Apply(Take(1), ys));
  }
}
