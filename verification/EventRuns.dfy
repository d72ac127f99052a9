/** Backbone.Events: what holds of `trigger` over every run of binding, unbinding and triggering. */
module EventRuns {
  import opened EventTrigger

  /** A run; that the machine stays bounded excludes none (`RunExtends`). */
  ghost predicate Run(ops: seq<Op>)
    decreases |ops|, 0
  {
    ops == [] ||
    (var rest := ops[..|ops| - 1]; Run(rest) && Bounded(After(rest)) && Enabled(After(rest), ops[|ops| - 1]))
  }

  function After(ops: seq<Op>): Machine
    requires Run(ops)
    decreases |ops|, 1
  {
    if ops == [] then INITIAL else Step(After(ops[..|ops| - 1]), ops[|ops| - 1])
  }

  lemma {:induction false} RunSound(ops: seq<Op>)
    requires Run(ops)
    ensures Sound(After(ops))
  {
    if ops != [] {
      var m, op := After(ops[..|ops| - 1]), ops[|ops| - 1];
      RunSound(ops[..|ops| - 1]);
      StepSound(m, op);
      assert After(ops) == Step(m, op);
    }
  }

  lemma RunBounded(ops: seq<Op>)
    requires Run(ops)
    ensures Bounded(After(ops))
  {
    RunSound(ops);
    SoundBounded(After(ops));
  }

  lemma SoundBounded(m: Machine)
    requires Sound(m)
    ensures Bounded(m)
  {
    forall k | 0 <= k < |m.frames|
      ensures var f := m.frames[k];
              f.list < |m.store| && f.i <= f.l <= |m.store[f.list]| && f.trigger < |m.promised| &&
              (f.rest.Some? ==> f.rest.value < |m.store|)
    {
      assert OnCourse(m, m.frames[k]);
    }
  }

  /** Whatever is enabled can be done: a run is any sequence of enabled steps. */
  lemma {:induction false} RunExtends(ops: seq<Op>, op: Op)
    requires Run(ops)
    ensures Run(ops + [op]) <==> Enabled(After(ops), op)
  {
    RunBounded(ops);
    assert (ops + [op])[..|ops|] == ops;
    RunLast(ops + [op]);
  }

  lemma RunLast(ops: seq<Op>)
    requires ops != [] && Run(ops[..|ops| - 1]) && Bounded(After(ops[..|ops| - 1]))
    ensures Run(ops) <==> Enabled(After(ops[..|ops| - 1]), ops[|ops| - 1])
  {
  }

  // ----- what is run

  /** Has the callback of this `once` binding run? */
  ghost predicate Ran(log: seq<Visit>, binding: nat) {
    exists j :: 0 <= j < |log| && log[j].ran && log[j].handler.once && log[j].handler.binding == binding
  }

  /** A visit runs its handler, unless that is a `once` binding that has run before. */
  ghost predicate Explained(log: seq<Visit>, k: nat)
    requires k < |log|
  {
    log[k].ran <==> !(log[k].handler.once && Ran(log[..k], log[k].handler.binding))
  }

  /** The spent bindings are those that have run, and every visit is explained. */
  ghost predicate Honest(log: seq<Visit>, spent: set<nat>) {
    && (forall b: nat :: b in spent <==> Ran(log, b))
    && (forall k :: 0 <= k < |log| ==> Explained(log, k))
  }

  lemma RanExtended(log: seq<Visit>, v: Visit, b: nat)
    ensures Ran(log + [v], b) <==> Ran(log, b) || (v.ran && v.handler.once && v.handler.binding == b)
  {
    var more := log + [v];
    if Ran(log, b) {
      var j :| 0 <= j < |log| && log[j].ran && log[j].handler.once && log[j].handler.binding == b;
      assert more[j] == log[j];
    }
    assert more[|log|] == v;
  }

  lemma HonestExtended(log: seq<Visit>, spent: set<nat>, v: Visit)
    requires Honest(log, spent) && (v.ran <==> !(v.handler.once && v.handler.binding in spent))
    ensures Honest(log + [v], if v.ran && v.handler.once then spent + {v.handler.binding} else spent)
  {
    forall b: nat ensures Ran(log + [v], b) <==> Ran(log, b) || (v.ran && v.handler.once && v.handler.binding == b) {
      RanExtended(log, v, b);
    }
    forall k | 0 <= k <= |log| ensures Explained(log + [v], k) {
      assert (log + [v])[..k] == log[..k];
      if k < |log| {
        assert Explained(log, k);
      } else {
        assert log[..k] == log;
      }
    }
  }

  lemma StepHonest(m: Machine, op: Op)
    requires Honest(m.log, m.spent) && Bounded(m) && Enabled(m, op)
    ensures Honest(Step(m, op).log, Step(m, op).spent)
  {
    if op.Continue? && Top(m).i < Top(m).l {
      var h := m.store[Top(m).list][Top(m).i];
      OnlySpentSkipped(m);
      HonestExtended(m.log, m.spent, Visit(Top(m).trigger, h, !(h.once && h.binding in m.spent)));
    }
  }

  lemma {:induction false} RunHonest(ops: seq<Op>)
    requires Run(ops)
    ensures Honest(After(ops).log, After(ops).spent)
  {
    if ops != [] {
      RunHonest(ops[..|ops| - 1]);
      StepHonest(After(ops[..|ops| - 1]), ops[|ops| - 1]);
    }
  }

  /** In every run, a handler that is come to is run, unless it is a `once` binding whose callback has run before, in
      this trigger or another. */
  lemma VisitsExplained(ops: seq<Op>, k: nat)
    requires Run(ops) && k < |After(ops).log|
    ensures var log := After(ops).log;
            log[k].ran <==> !(log[k].handler.once && Ran(log[..k], log[k].handler.binding))
  {
    RunHonest(ops);
    assert Explained(After(ops).log, k);
  }

  // ----- what a trigger does

  /** The places in the log where trigger `t` came to a handler, in order. */
  function VisitsAt(log: seq<Visit>, t: nat): (at: seq<nat>)
    ensures forall i :: 0 <= i < |at| ==> at[i] < |log| && log[at[i]].trigger == t
    ensures forall i, j :: 0 <= i < j < |at| ==> at[i] < at[j]
    ensures forall k :: 0 <= k < |log| && log[k].trigger == t ==> k in at
  {
    if log == [] then []
    else
      var n := |log| - 1;
      var before := VisitsAt(log[..n], t);
      assert forall k :: 0 <= k < n ==> log[..n][k] == log[k];
      if log[n].trigger == t then before + [n] else before
  }

  lemma {:induction false} VisitsAtPlaces(log: seq<Visit>, t: nat)
    ensures var at, visits := VisitsAt(log, t), VisitsOf(log, t);
            |at| == |visits| && forall i :: 0 <= i < |at| ==> log[at[i]].handler == visits[i]
  {
    if log != [] { VisitsAtPlaces(log[..|log| - 1], t); }
  }

  /** Each trigger comes to exactly the handlers registered when it was called, named ones first and then those for
      "all", in order: so far as it has got, and all of them when it is over. It runs each of them, except a `once`
      binding that has run before. */
  lemma TriggerIsExact(ops: seq<Op>, t: nat)
    requires Run(ops) && t < |After(ops).promised|
    ensures var log, promised := After(ops).log, After(ops).promised[t];
            var at := VisitsAt(log, t);
            && |at| <= |promised| && (!Active(After(ops), t) ==> |at| == |promised|)
            && forall i :: 0 <= i < |at| ==>
                 && log[at[i]].handler == promised[i]
                 && (log[at[i]].ran <==> !(promised[i].once && Ran(log[..at[i]], promised[i].binding)))
  {
    VisitsPromised(ops, t);
    RunHonest(ops);
    var log := After(ops).log;
    VisitsAtPlaces(log, t);
    forall i | 0 <= i < |VisitsAt(log, t)| ensures Explained(log, VisitsAt(log, t)[i]) {
    }
  }

  lemma {:induction false} VisitsPromised(ops: seq<Op>, t: nat)
    requires Run(ops) && t < |After(ops).promised|
    ensures var m := After(ops);
            VisitsOf(m.log, t) <= m.promised[t] && (!Active(m, t) ==> VisitsOf(m.log, t) == m.promised[t])
  {
    RunSound(ops);
    var m := After(ops);
    if Active(m, t) {
      var k :| 0 <= k < |m.frames| && m.frames[k].trigger == t;
      assert OnCourse(m, m.frames[k]);
    }
  }

  /** A `once` callback runs at most once per binding, also under nested triggers. */
  lemma OnceRunsOnce(ops: seq<Op>, i: nat, j: nat)
    requires Run(ops) && i < j < |After(ops).log|
    ensures var log := After(ops).log;
            log[i].ran && log[j].ran && log[i].handler.once && log[j].handler.once ==>
              log[i].handler.binding != log[j].handler.binding
  {
    RunSound(ops);
  }

  // ----- every dispatch ends

  /** When handlers return without calling anything, the dispatches under way come to their ends: what is left then. */
  ghost function Unwound(m: Machine): (n: Machine)
    requires Sound(m) && Bounded(m)
    ensures Sound(n) && Bounded(n) && n.frames == [] && n.promised == m.promised
    decreases |m.frames|, Ahead(m)
  {
    if m.frames == [] then m
    else
      var next := Onward(m);
      GoesOn(m, next);
      Unwound(next)
  }

  /** The running handler returns, or the dispatch goes on. */
  ghost function Onward(m: Machine): Machine
    requires Bounded(m) && m.frames != []
  {
    Step(m, if InUser(m) then Return else Continue)
  }

  /** The handlers that the dispatch on top has still to come to, and whether one is running. */
  function Ahead(m: Machine): nat {
    if m.frames == [] then 0
    else
      var f := Top(m);
      2 * (if f.i < f.l then f.l - f.i else 0)
      + (if f.rest.Some? && f.rest.value < |m.store| then 2 * |m.store[f.rest.value]| + 2 else 0)
      + if f.inUser then 1 else 0
  }

  lemma GoesOn(m: Machine, n: Machine)
    requires Sound(m) && Bounded(m) && m.frames != [] && n == Onward(m)
    ensures Sound(n) && Bounded(n) && n.promised == m.promised
    ensures |n.frames| < |m.frames| || (|n.frames| == |m.frames| && Ahead(n) < Ahead(m))
  {
    StepSound(m, if InUser(m) then Return else Continue);
    SoundBounded(n);
    Nearer(m, n);
  }

  lemma Nearer(m: Machine, n: Machine)
    requires Bounded(m) && m.frames != [] && n == Onward(m)
    ensures n.promised == m.promised
    ensures |n.frames| < |m.frames| || (|n.frames| == |m.frames| && Ahead(n) < Ahead(m))
  {
  }

  /** So from the end of any run, every trigger under way comes to all it promised. */
  lemma EveryTriggerEnds(ops: seq<Op>, t: nat)
    requires Run(ops) && t < |After(ops).promised|
    ensures Sound(After(ops)) && Bounded(After(ops))
    ensures VisitsOf(Unwound(After(ops)).log, t) == After(ops).promised[t]
  {
    RunSound(ops);
    RunBounded(ops);
    assert !Active(Unwound(After(ops)), t);
  }
}
