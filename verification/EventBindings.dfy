/** Backbone.Events: which handlers are registered when, over every run, although arrays of handlers are shared with the
    dispatches under way. */
module EventBindings {
  import opened EventTrigger
  import opened EventRuns

  /** No two names share an array. */
  ghost predicate Separate(m: Machine) {
    forall a, b :: a in m.events && b in m.events && a != b ==> m.events[a] != m.events[b]
  }

  /** The handlers that are not of the given bindings, in order. */
  function Staying(hs: seq<Handler>, gone: set<nat>): (r: seq<Handler>)
    ensures forall h :: h in r <==> h in hs && h.binding !in gone
  {
    if hs == [] then []
    else
      var n := |hs| - 1;
      assert forall h :: h in hs <==> h in hs[..n] || h == hs[n];
      Staying(hs[..n], gone) + if hs[n].binding in gone then [] else [hs[n]]
  }

  lemma {:induction false} RemainingStay(hs: seq<Handler>, gone: set<nat>)
    ensures Remaining(hs, gone) == Staying(hs, gone)
  {
    if hs != [] { RemainingStay(hs[..|hs| - 1], gone); }
  }

  /** The number of bindings made. */
  function Bindings(ops: seq<Op>): nat {
    if ops == [] then 0 else Bindings(ops[..|ops| - 1]) + if ops[|ops| - 1].On? then 1 else 0
  }

  /** The `once` binding of event `n` that the step from `before` to `after` has run, if any. */
  function RunOnce(before: Machine, after: Machine, n: string): set<nat> {
    if |after.log| == |before.log| + 1 && Last(after).ran && Last(after).handler.once && Last(after).handler.name == n
    then {Last(after).handler.binding} else {}
  }

  function Last(m: Machine): Visit
    requires m.log != []
  {
    m.log[|m.log| - 1]
  }

  // ----- one step

  lemma BindingTables(m: Machine, name: string, once: bool, n: string)
    requires Bounded(m) && Separate(m)
    ensures var t := Binding(m, name, once);
            && Bounded(t) && Separate(t)
            && HandlersOf(t, n) == HandlersOf(m, n) + if n == name then [Handler(m.next, name, once)] else []
  {
    var t := Binding(m, name, once);
    forall k | 0 <= k < |t.frames|
      ensures var f := t.frames[k];
              f.list < |t.store| && f.i <= f.l <= |t.store[f.list]| && f.trigger < |t.promised| &&
              (f.rest.Some? ==> f.rest.value < |t.store|)
    {
      assert t.frames[k] == m.frames[k];
    }
  }

  lemma UnbindingTables(m: Machine, name: string, gone: set<nat>, n: string)
    requires Bounded(m) && Separate(m)
    ensures var t := Unbinding(m, name, gone);
            && Bounded(t) && Separate(t)
            && HandlersOf(t, n) == if n == name then Staying(HandlersOf(m, n), gone) else HandlersOf(m, n)
  {
    RemainingStay(HandlersOf(m, name), gone);
  }

  lemma TriggeringTables(m: Machine, name: string, n: string)
    requires Bounded(m) && Separate(m)
    ensures var t := Triggering(m, name);
            && Bounded(t) && Separate(t) && HandlersOf(t, n) == HandlersOf(m, n)
            && t.promised == m.promised + [HandlersOf(m, name) + HandlersOf(m, "all")]
  {
  }

  /** What a step does to the handlers of event `n` and to what is promised. */
  ghost predicate Follows(before: Machine, op: Op, after: Machine, n: string)
    requires Bounded(before) && Bounded(after)
  {
    var was, now := HandlersOf(before, n), HandlersOf(after, n);
    && (match op
        case On(name, once) => now == was + if n == name then [Handler(before.next, name, once)] else []
        case Off(name, gone) => now == if n == name then Staying(was, gone) else was
        case OffEvery => now == []
        case Continue => now == Staying(was, RunOnce(before, after, n))
        case _ => now == was)
    && after.promised == before.promised +
         (if op.Trigger? then [HandlersOf(before, op.name) + HandlersOf(before, "all")] else [])
    && after.next == before.next + if op.On? then 1 else 0
  }

  lemma {:induction false} NoneGone(hs: seq<Handler>)
    ensures Staying(hs, {}) == hs
  {
    if hs != [] {
      NoneGone(hs[..|hs| - 1]);
      assert hs == hs[..|hs| - 1] + [hs[|hs| - 1]];
    }
  }

  lemma ContinueFollows(m: Machine, n: string)
    requires Bounded(m) && Separate(m) && m.frames != [] && !Top(m).inUser && Bounded(Continuing(m))
    ensures Separate(Continuing(m)) && Follows(m, Continue, Continuing(m), n)
  {
    NoneGone(HandlersOf(m, n));
    if Top(m).i < Top(m).l {
      var h := m.store[Top(m).list][Top(m).i];
      if h.once && h.binding !in m.spent {
        OnceFollows(m, h, n);
      } else {
        LoggedTables(m, m, h, !h.once, n);
      }
    }
  }

  /** A visit that is logged leaves the tables as they are. */
  lemma LoggedTables(m: Machine, mid: Machine, h: Handler, ran: bool, n: string)
    requires Bounded(mid) && m.frames != [] && mid.frames == m.frames && mid.log == m.log && Separate(mid)
    requires Bounded(Logged(mid, Top(m), h, ran))
    ensures var t := Logged(mid, Top(m), h, ran);
            && Separate(t) && HandlersOf(t, n) == HandlersOf(mid, n) && t.promised == mid.promised && t.next == mid.next
            && RunOnce(m, t, n) == if ran && h.once && h.name == n then {h.binding} else {}
  {
  }

  lemma OnceFollows(m: Machine, h: Handler, n: string)
    requires Bounded(m) && Separate(m) && m.frames != [] && !Top(m).inUser && Bounded(Continuing(m))
    requires Top(m).i < Top(m).l && h == m.store[Top(m).list][Top(m).i] && h.once && h.binding !in m.spent
    ensures Separate(Continuing(m)) && Follows(m, Continue, Continuing(m), n)
  {
    var mid := Unbinding(m, h.name, {h.binding});
    NoneGone(HandlersOf(m, n));
    UnbindingTables(m, h.name, {h.binding}, n);
    assert mid.frames == m.frames && mid.log == m.log && mid.promised == m.promised && mid.next == m.next;
    assert Continuing(m) == Logged(mid, Top(m), h, true);
    LoggedTables(m, mid, h, true, n);
  }

  lemma StepFollows(m: Machine, op: Op, n: string)
    requires Bounded(m) && Separate(m) && Enabled(m, op) && Bounded(Step(m, op))
    ensures Separate(Step(m, op)) && Follows(m, op, Step(m, op), n)
  {
    match op
    case On(name, once) => BindingTables(m, name, once, n);
    case Off(name, gone) => UnbindingTables(m, name, gone, n);
    case OffEvery =>
    case Trigger(name) => TriggeringTables(m, name, n);
    case Return =>
    case Continue => ContinueFollows(m, n);
  }

  // ----- over runs

  lemma {:induction false} RunSeparate(ops: seq<Op>)
    requires Run(ops)
    ensures Bounded(After(ops)) && Separate(After(ops)) && After(ops).next == Bindings(ops)
  {
    RunBounded(ops);
    if ops != [] {
      RunSeparate(ops[..|ops| - 1]);
      StepFollows(After(ops[..|ops| - 1]), ops[|ops| - 1], "");
    }
  }

  /** In every run, the handlers of each event follow the calls: `on` and `once` add one at the end, numbered in order,
      `off` takes those it is asked to, a `once` binding goes when it runs, and nothing else changes them; and a trigger
      promises those of its event and then those of "all". */
  lemma {:induction false} TablesFollow(ops: seq<Op>, n: string)
    requires Run(ops) && ops != []
    ensures var rest, op := ops[..|ops| - 1], ops[|ops| - 1];
            && Bounded(After(rest)) && Bounded(After(ops)) && Follows(After(rest), op, After(ops), n)
            && After(rest).next == Bindings(rest)
  {
    RunSeparate(ops[..|ops| - 1]);
    RunBounded(ops);
    StepFollows(After(ops[..|ops| - 1]), ops[|ops| - 1], n);
  }
}
