/** Backbone.Events: `trigger` on one object, while the handlers it runs bind, unbind and trigger again. The arrays of
    handlers are shared between `_events` and the triggers under way, so they are named by their place in a store. */
module EventTrigger {
  import opened Options

  /** A handler; `binding` tells one call of `on` or `once` from another, `name` is the event it was bound to. */
  datatype Handler = Handler(binding: nat, name: string, once: bool)

  /** A dispatch under way: it will visit `store[list][i..l]`, then the handlers of `rest`. */
  datatype Frame = Frame(trigger: nat, list: nat, i: nat, l: nat, rest: Option<nat>, inUser: bool)

  /** The dispatch of `trigger` came to `handler`; a spent `once` wrapper does not run its callback. */
  datatype Visit = Visit(trigger: nat, handler: Handler, ran: bool)

  /** `events` maps names to arrays; `spent` are the `once` bindings whose wrapper was entered; `promised[t]` are the
      handlers registered when trigger number `t` was called. */
  datatype Machine = Machine(store: seq<seq<Handler>>, events: map<string, nat>, frames: seq<Frame>, spent: set<nat>,
                             next: nat, log: seq<Visit>, promised: seq<seq<Handler>>)

  datatype Op =
    | On(name: string, once: bool)
    | Off(name: string, gone: set<nat>)   // the handlers with these bindings go
    | OffEvery                            // `off()`
    | Trigger(name: string)
    | Return                              // the running handler returns
    | Continue                            // the dispatch goes on

  const INITIAL := Machine([], map[], [], {}, 0, [], [])

  function Top(m: Machine): Frame
    requires m.frames != []
  {
    m.frames[|m.frames| - 1]
  }

  predicate InUser(m: Machine) {
    m.frames == [] || Top(m).inUser
  }

  predicate Enabled(m: Machine, op: Op) {
    if op.Continue? then m.frames != [] && !Top(m).inUser
    else if op.Return? then m.frames != [] && Top(m).inUser
    else InUser(m)
  }

  /** The tables point into the store, and dispatches into arrays long enough. */
  ghost predicate Bounded(m: Machine) {
    && (forall n :: n in m.events ==> m.events[n] < |m.store|)
    && (forall k :: 0 <= k < |m.frames| ==>
          var f := m.frames[k];
          f.list < |m.store| && f.i <= f.l <= |m.store[f.list]| && f.trigger < |m.promised| &&
          (f.rest.Some? ==> f.rest.value < |m.store|))
  }

  function HandlersOf(m: Machine, name: string): seq<Handler>
    requires Bounded(m)
  {
    if name in m.events then m.store[m.events[name]] else []
  }

  /** `onApi`: the array of the name grows in place. */
  function Binding(m: Machine, name: string, once: bool): Machine
    requires Bounded(m)
  {
    var h := Handler(m.next, name, once);
    if name in m.events then
      var a := m.events[name];
      m.(store := m.store[a := m.store[a] + [h]], next := m.next + 1)
    else
      m.(store := m.store + [[h]], events := m.events[name := |m.store|], next := m.next + 1)
  }

  function Remaining(hs: seq<Handler>, gone: set<nat>): seq<Handler> {
    if hs == [] then []
    else
      Remaining(hs[..|hs| - 1], gone) + if hs[|hs| - 1].binding in gone then [] else [hs[|hs| - 1]]
  }

  /** `offApi` for one name: the array is replaced by a new one, or the name deleted. */
  function Unbinding(m: Machine, name: string, gone: set<nat>): Machine
    requires Bounded(m)
  {
    if name !in m.events then m
    else
      var left := Remaining(m.store[m.events[name]], gone);
      if left == [] then m.(events := m.events - {name})
      else m.(store := m.store + [left], events := m.events[name := |m.store|])
  }

  /** `trigger`: when there are named handlers, those for "all" are copied first. */
  function Triggering(m: Machine, name: string): Machine
    requires Bounded(m)
  {
    var t := m.(promised := m.promised + [HandlersOf(m, name) + HandlersOf(m, "all")]);
    var id := |m.promised|;
    if name in m.events then
      var a := m.events[name];
      var copied := "all" in m.events;
      t.(store := if copied then m.store + [HandlersOf(m, "all")] else m.store,
         frames := m.frames + [Frame(id, a, 0, |m.store[a]|, if copied then Some(|m.store|) else None, false)])
    else if "all" in m.events then
      var a := m.events["all"];
      t.(frames := m.frames + [Frame(id, a, 0, |m.store[a]|, None, false)])
    else t
  }

  function WithTop(m: Machine, f: Frame): Machine
    requires m.frames != []
  {
    m.(frames := m.frames[|m.frames| - 1 := f])
  }

  /** The dispatch on top comes to handler `h`. */
  function Logged(m: Machine, f: Frame, h: Handler, ran: bool): Machine
    requires m.frames != []
  {
    m.(log := m.log + [Visit(f.trigger, h, ran)],
       spent := if ran && h.once then m.spent + {h.binding} else m.spent,
       frames := m.frames[|m.frames| - 1 := f.(i := f.i + 1, inUser := ran)])
  }

  /** The dispatch calls a handler. A `once` wrapper runs its callback the first time only, after unbinding itself. */
  function Visiting(m: Machine, f: Frame, h: Handler): Machine
    requires Bounded(m) && m.frames != [] && f == Top(m)
  {
    if h.once && h.binding in m.spent then Logged(m, f, h, false)
    else if h.once then Logged(Unbinding(m, h.name, {h.binding}), f, h, true)
    else Logged(m, f, h, true)
  }

  function Continuing(m: Machine): Machine
    requires Bounded(m) && m.frames != []
  {
    var f := Top(m);
    if f.i < f.l then Visiting(m, f, m.store[f.list][f.i])
    else if f.rest.Some? then WithTop(m, Frame(f.trigger, f.rest.value, 0, |m.store[f.rest.value]|, None, false))
    else m.(frames := m.frames[..|m.frames| - 1])
  }

  function Step(m: Machine, op: Op): Machine
    requires Bounded(m) && Enabled(m, op)
  {
    match op
    case On(name, once) => Binding(m, name, once)
    case Off(name, gone) => Unbinding(m, name, gone)
    case OffEvery => m.(events := map[])
    case Trigger(name) => Triggering(m, name)
    case Return => WithTop(m, Top(m).(inUser := false))
    case Continue => Continuing(m)
  }

  // ----- the invariant

  /** The handlers a trigger has come to, in order. */
  function VisitsOf(log: seq<Visit>, t: nat): seq<Handler> {
    if log == [] then []
    else
      var n := |log| - 1;
      VisitsOf(log[..n], t) + if log[n].trigger == t then [log[n].handler] else []
  }

  /** What a dispatch has still to visit. */
  function ToVisit(store: seq<seq<Handler>>, f: Frame): seq<Handler>
    requires f.list < |store| && f.i <= f.l <= |store[f.list]| && (f.rest.Some? ==> f.rest.value < |store|)
  {
    store[f.list][f.i..f.l] + if f.rest.Some? then store[f.rest.value] else []
  }

  /** A private copy is in no table. */
  ghost predicate Private(m: Machine, a: nat) {
    forall n :: n in m.events ==> m.events[n] != a
  }

  ghost predicate OnCourse(m: Machine, f: Frame) {
    && f.list < |m.store| && f.i <= f.l <= |m.store[f.list]| && f.trigger < |m.promised|
    && (f.rest.Some? ==> f.rest.value < |m.store| && Private(m, f.rest.value))
    && VisitsOf(m.log, f.trigger) + ToVisit(m.store, f) == m.promised[f.trigger]
  }

  ghost predicate Active(m: Machine, t: nat) {
    exists k :: 0 <= k < |m.frames| && m.frames[k].trigger == t
  }

  ghost predicate Dispatched(m: Machine) {
    && (forall n :: n in m.events ==> m.events[n] < |m.store|)
    && (forall k :: 0 <= k < |m.frames| ==> OnCourse(m, m.frames[k]))
    && (forall i, j :: 0 <= i < j < |m.frames| ==> m.frames[i].trigger != m.frames[j].trigger)
    && (forall t :: 0 <= t < |m.promised| && !Active(m, t) ==> VisitsOf(m.log, t) == m.promised[t])
    && (forall k :: 0 <= k < |m.log| ==> m.log[k].trigger < |m.promised|)
  }

  /** A `once` binding has run at most once, and only if its wrapper is spent. */
  ghost predicate OnceOnly(log: seq<Visit>, spent: set<nat>) {
    && (forall k :: 0 <= k < |log| && log[k].ran && log[k].handler.once ==> log[k].handler.binding in spent)
    && (forall i, j :: 0 <= i < j < |log| && log[i].ran && log[j].ran && log[i].handler.once && log[j].handler.once ==>
          log[i].handler.binding != log[j].handler.binding)
  }

  ghost predicate Sound(m: Machine) {
    Dispatched(m) && OnceOnly(m.log, m.spent)
  }

  /** The store only grows: arrays that tables point to at their ends, and by new arrays. */
  ghost predicate Grown(m: Machine, n: Machine) {
    && |m.store| <= |n.store|
    && (forall a :: 0 <= a < |m.store| ==> m.store[a] <= n.store[a] && (Private(m, a) ==> n.store[a] == m.store[a]))
    && (forall s :: s in n.events ==> n.events[s] < |n.store|)
    && (forall s :: s in n.events && n.events[s] < |m.store| ==> s in m.events && m.events[s] == n.events[s])
  }

  lemma CourseKept(m: Machine, n: Machine, f: Frame)
    requires OnCourse(m, f) && Grown(m, n) && m.promised <= n.promised
    requires VisitsOf(n.log, f.trigger) == VisitsOf(m.log, f.trigger)
    ensures OnCourse(n, f)
  {
  }

  /** Steps that neither visit nor dispatch. */
  lemma QuietSound(m: Machine, n: Machine)
    requires Sound(m) && Grown(m, n) && n.frames == m.frames && n.log == m.log
    requires n.promised == m.promised && n.spent == m.spent
    ensures Sound(n)
  {
    forall k | 0 <= k < |n.frames| ensures OnCourse(n, n.frames[k]) {
      CourseKept(m, n, m.frames[k]);
    }
    forall t | 0 <= t < |n.promised| && !Active(n, t) ensures VisitsOf(n.log, t) == n.promised[t] {
      assert !Active(m, t);
    }
  }

  lemma BindingGrown(m: Machine, name: string, once: bool)
    requires Sound(m) && Bounded(m)
    ensures Grown(m, Binding(m, name, once))
  {
  }

  lemma UnbindingGrown(m: Machine, name: string, gone: set<nat>)
    requires Sound(m) && Bounded(m)
    ensures Grown(m, Unbinding(m, name, gone))
  {
  }

  /** Another position of the dispatch on top. */
  lemma TopSound(m: Machine, f: Frame)
    requires Sound(m) && m.frames != [] && f.trigger == Top(m).trigger && OnCourse(m, f)
    ensures Sound(WithTop(m, f))
  {
    var n := WithTop(m, f);
    forall k | 0 <= k < |n.frames| ensures OnCourse(n, n.frames[k]) {
      CourseKept(m, n, if k == |m.frames| - 1 then f else m.frames[k]);
    }
    forall t: nat ensures Active(n, t) <==> Active(m, t) {
      SameActive(m, n, t);
    }
  }

  lemma {:induction false} NoVisits(log: seq<Visit>, t: nat)
    requires forall k :: 0 <= k < |log| ==> log[k].trigger != t
    ensures VisitsOf(log, t) == []
  {
    if log != [] { NoVisits(log[..|log| - 1], t); }
  }

  /** Frames of other triggers make no difference to whether `t` is under way. */
  lemma SameActive(m: Machine, n: Machine, t: nat)
    requires |m.frames| <= |n.frames| && forall k :: 0 <= k < |m.frames| ==> n.frames[k].trigger == m.frames[k].trigger
    requires forall k :: |m.frames| <= k < |n.frames| ==> n.frames[k].trigger != t
    ensures Active(n, t) <==> Active(m, t)
  {
  }

  lemma TriggerGrown(m: Machine, name: string)
    requires Sound(m) && Bounded(m)
    ensures Grown(m, Triggering(m, name))
  {
  }

  /** The new dispatch is on course to visit what was promised. */
  lemma NewFrame(m: Machine, name: string)
    requires Sound(m) && Bounded(m) && (name in m.events || "all" in m.events)
    ensures var n := Triggering(m, name);
            && |n.frames| == |m.frames| + 1 && n.frames[..|m.frames|] == m.frames
            && n.frames[|m.frames|].trigger == |m.promised| && OnCourse(n, n.frames[|m.frames|])
  {
    var n := Triggering(m, name);
    var f := n.frames[|m.frames|];
    NoVisits(m.log, |m.promised|);
    assert n.store[f.list] == m.store[f.list] && m.store[f.list][0..f.l] == m.store[f.list];
    assert ToVisit(n.store, f) == n.promised[|m.promised|];
  }

  lemma TriggerSound(m: Machine, name: string)
    requires Sound(m) && Bounded(m)
    ensures Sound(Triggering(m, name))
  {
    var n, id := Triggering(m, name), |m.promised|;
    NoVisits(m.log, id);
    TriggerGrown(m, name);
    if name in m.events || "all" in m.events {
      NewFrame(m, name);
      assert Active(n, id);
    } else {
      assert n.frames == m.frames && n.promised[id] == [];
    }
    forall k | 0 <= k < |n.frames| ensures OnCourse(n, n.frames[k]) {
      if k < |m.frames| {
        assert n.frames[k] == m.frames[k];
        CourseKept(m, n, m.frames[k]);
      }
    }
    forall t: nat | t < id ensures Active(n, t) <==> Active(m, t) {
      SameActive(m, n, t);
    }
    TriggersApart(m, n);
  }

  lemma TriggersApart(m: Machine, n: Machine)
    requires Sound(m) && |m.frames| <= |n.frames| <= |m.frames| + 1 && n.frames[..|m.frames|] == m.frames
    requires |n.frames| > |m.frames| ==> n.frames[|m.frames|].trigger == |m.promised|
    ensures forall i, j :: 0 <= i < j < |n.frames| ==> n.frames[i].trigger != n.frames[j].trigger
  {
  }

  lemma VisitsExtended(log: seq<Visit>, v: Visit, t: nat)
    ensures VisitsOf(log + [v], t) == VisitsOf(log, t) + if v.trigger == t then [v.handler] else []
  {
  }

  lemma OnceExtended(log: seq<Visit>, spent: set<nat>, v: Visit)
    requires OnceOnly(log, spent) && (v.ran && v.handler.once ==> v.handler.binding !in spent)
    ensures OnceOnly(log + [v], if v.ran && v.handler.once then spent + {v.handler.binding} else spent)
  {
  }

  /** The next handler is visited: the log and the position of the dispatch on top move together. */
  lemma VisitSound(m: Machine, f: Frame, h: Handler, ran: bool)
    requires Sound(m) && m.frames != [] && f == Top(m) && f.list < |m.store| && f.i < f.l <= |m.store[f.list]|
    requires h == m.store[f.list][f.i] && (ran && h.once ==> h.binding !in m.spent)
    ensures Sound(Logged(m, f, h, ran))
  {
    var n := Logged(m, f, h, ran);
    OnceExtended(m.log, m.spent, Visit(f.trigger, h, ran));
    VisitFrames(m, f, h, ran);
    VisitOthers(m, f, h, ran);
  }

  lemma VisitOthers(m: Machine, f: Frame, h: Handler, ran: bool)
    requires Dispatched(m) && m.frames != [] && f == Top(m) && f.list < |m.store| && f.i < f.l <= |m.store[f.list]|
    requires h == m.store[f.list][f.i]
    ensures var n := Logged(m, f, h, ran);
            forall t :: 0 <= t < |n.promised| && !Active(n, t) ==> VisitsOf(n.log, t) == n.promised[t]
  {
    var n := Logged(m, f, h, ran);
    assert m.frames[|m.frames| - 1] == f && Active(m, f.trigger);
    forall t | 0 <= t < |n.promised| && !Active(n, t) ensures VisitsOf(n.log, t) == n.promised[t] {
      SameActive(m, n, t);
      VisitsExtended(m.log, Visit(f.trigger, h, ran), t);
    }
  }

  lemma VisitFrames(m: Machine, f: Frame, h: Handler, ran: bool)
    requires Dispatched(m) && m.frames != [] && f == Top(m) && f.list < |m.store| && f.i < f.l <= |m.store[f.list]|
    requires h == m.store[f.list][f.i]
    ensures var n := Logged(m, f, h, ran);
            && (forall k :: 0 <= k < |n.frames| ==> OnCourse(n, n.frames[k]))
            && (forall i, j :: 0 <= i < j < |n.frames| ==> n.frames[i].trigger != n.frames[j].trigger)
            && f.trigger < |m.promised|
  {
    var n, v := Logged(m, f, h, ran), Visit(f.trigger, h, ran);
    assert OnCourse(m, f);
    forall k | 0 <= k < |n.frames| ensures OnCourse(n, n.frames[k]) {
      VisitsExtended(m.log, v, m.frames[k].trigger);
      if k < |m.frames| - 1 {
        assert m.frames[k].trigger != m.frames[|m.frames| - 1].trigger;
        CourseKept(m, n, m.frames[k]);
      } else {
        VisitCourse(m, n, n.frames[k], h);
      }
    }
  }

  lemma VisitCourse(m: Machine, n: Machine, g: Frame, h: Handler)
    requires m.frames != [] && OnCourse(m, Top(m)) && Top(m).i < Top(m).l && h == m.store[Top(m).list][Top(m).i]
    requires g == Top(m).(i := Top(m).i + 1, inUser := g.inUser)
    requires n.store == m.store && n.events == m.events && n.promised == m.promised
    requires VisitsOf(n.log, g.trigger) == VisitsOf(m.log, g.trigger) + [h]
    ensures OnCourse(n, g)
  {
  }

  lemma ContinueSound(m: Machine)
    requires Sound(m) && Bounded(m) && m.frames != [] && !Top(m).inUser
    ensures Sound(Continuing(m))
  {
    var f := Top(m);
    assert OnCourse(m, f);
    if f.i < f.l {
      var h := m.store[f.list][f.i];
      if h.once && h.binding in m.spent {
        VisitSound(m, f, h, false);
      } else if h.once {
        OnceVisit(m, f, h);
      } else {
        VisitSound(m, f, h, true);
      }
    } else if f.rest.Some? {
      var g := Frame(f.trigger, f.rest.value, 0, |m.store[f.rest.value]|, None, false);
      assert ToVisit(m.store, g) == ToVisit(m.store, f);
      TopSound(m, g);
    } else {
      PopSound(m);
    }
  }

  /** A `once` wrapper unbinds itself, then runs. */
  lemma OnceVisit(m: Machine, f: Frame, h: Handler)
    requires Sound(m) && Bounded(m) && m.frames != [] && f == Top(m) && f.i < f.l && h == m.store[f.list][f.i]
    requires h.once && h.binding !in m.spent
    ensures Sound(Visiting(m, f, h))
  {
    var mid := Unbinding(m, h.name, {h.binding});
    UnbindingGrown(m, h.name, {h.binding});
    QuietSound(m, mid);
    assert mid.store[f.list][f.i] == h;
    assert Top(mid) == f && mid.log == m.log && mid.spent == m.spent && mid.frames == m.frames;
    VisitSound(mid, f, h, true);
  }

  lemma PopSound(m: Machine)
    requires Sound(m) && m.frames != [] && Top(m).i == Top(m).l && Top(m).rest.None?
    ensures Sound(m.(frames := m.frames[..|m.frames| - 1]))
  {
    var n, f := m.(frames := m.frames[..|m.frames| - 1]), Top(m);
    assert OnCourse(m, f) && ToVisit(m.store, f) == [];
    forall k | 0 <= k < |n.frames| ensures OnCourse(n, n.frames[k]) {
      CourseKept(m, n, m.frames[k]);
    }
    forall t: nat | t != f.trigger && Active(m, t) ensures Active(n, t) {
      var k :| 0 <= k < |m.frames| && m.frames[k].trigger == t;
      assert n.frames[k].trigger == t;
    }
  }

  lemma {:induction false} StepSound(m: Machine, op: Op)
    requires Sound(m) && Bounded(m) && Enabled(m, op)
    ensures Sound(Step(m, op))
  {
    match op
    case On(name, once) => OnSound(m, name, once);
    case Off(name, gone) => OffSound(m, name, gone);
    case OffEvery => QuietSound(m, Step(m, op));
    case Trigger(name) => TriggerSound(m, name);
    case Return => ReturnSound(m);
    case Continue => ContinueSound(m);
  }

  lemma OnSound(m: Machine, name: string, once: bool)
    requires Sound(m) && Bounded(m)
    ensures Sound(Binding(m, name, once))
  {
    BindingGrown(m, name, once);
    QuietSound(m, Binding(m, name, once));
  }

  lemma OffSound(m: Machine, name: string, gone: set<nat>)
    requires Sound(m) && Bounded(m)
    ensures Sound(Unbinding(m, name, gone))
  {
    UnbindingGrown(m, name, gone);
    QuietSound(m, Unbinding(m, name, gone));
  }

  lemma ReturnSound(m: Machine)
    requires Sound(m) && m.frames != []
    ensures Sound(WithTop(m, Top(m).(inUser := false)))
  {
    assert OnCourse(m, Top(m));
    assert OnCourse(m, Top(m).(inUser := false));
    TopSound(m, Top(m).(inUser := false));
  }

  /** Only spent `once` wrappers are come to without running. */
  lemma OnlySpentSkipped(m: Machine)
    requires Bounded(m) && m.frames != [] && Top(m).i < Top(m).l
    ensures var n := Continuing(m); var v := n.log[|n.log| - 1];
            && v.handler == m.store[Top(m).list][Top(m).i]
            && (v.ran <==> !(v.handler.once && v.handler.binding in m.spent))
  {
  }
}
