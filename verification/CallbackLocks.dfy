/** jQuery.Callbacks: what a lock prevents. A locked list takes no more arguments, but the `add` that replays its memory
    is a firing too, and a firing begins by setting the lock anew. */
module CallbackLocks {
  import opened Options
  import opened Lists
  import opened Callbacks

  /** What user code does to a list; `Return` ends the function that the list is running. */
  datatype ListOp<F, A> =
    | Add(fs: seq<F>)
    | Remove(f: F)
    | Empty
    | Disable
    | Lock
    | FireWith(args: A)
    | Return(wasFalse: bool)

  predicate Enabled<F, A>(s: State<F, A>, op: ListOp<F, A>) {
    -1 <= s.firingIndex && (op.Return? ==> s.firing)
  }

  /** A list whose `fire` has been called, at the first function it runs or at its end. */
  function Fired<F, A>(s: State<F, A>): State<F, A>
    requires s.queue != [] && -1 <= s.firingIndex
  {
    Advanced(Started(s))
  }

  /** From one point of user code to the next. */
  function Step<F(==), A>(s: State<F, A>, op: ListOp<F, A>): State<F, A>
    requires Enabled(s, op)
  {
    match op
    case Add(fs) => if AddFires(s) then Fired(Added(s, fs)) else Added(s, fs)
    case Remove(f) => Removed(s, f)
    case Empty => Emptied(s)
    case Disable => Disabled(s)
    case Lock => Locked(s)
    case FireWith(args) => if FireWithFires(s) then Fired(Queued(s, args)) else Queued(s, args)
    case Return(wasFalse) => Advanced(Returned(s, wasFalse))
  }

  ghost predicate Run<F, A>(s: State<F, A>, ops: seq<ListOp<F, A>>)
    decreases |ops|
  {
    ops == [] || (Enabled(s, ops[0]) && Run(Step(s, ops[0]), ops[1..]))
  }

  function After<F(==), A>(s: State<F, A>, ops: seq<ListOp<F, A>>): State<F, A>
    requires Run(s, ops)
    decreases |ops|
  {
    if ops == [] then s else After(Step(s, ops[0]), ops[1..])
  }

  /** A list that `lock` or `disable` has locked, or a `once` list that has fired. */
  predicate Closed<F, A>(s: State<F, A>) {
    s.locked && s.queue == [] && -1 <= s.firingIndex
  }

  /** Has the list, or will it have once it is done firing, a memory that `add` replays? */
  predicate Replays<F, A>(s: State<F, A>) {
    !s.flags.once && s.memory.Some? && if s.firing then s.flags.memory else s.list.Some?
  }

  // ----- a lock without a memory lasts

  lemma {:induction false} CountedWithin<F>(list: seq<F>, at: int, f: F)
    ensures -1 <= at ==> CountUpTo(list, at, f) <= at + 1
    ensures CountUpTo(list, at, f) <= |list|
  {
    if list != [] {
      var n := |list| - 1;
      CountedWithin(list[..n], at, f);
    }
  }

  lemma {:induction false} AdvancedOnce<F, A>(s: State<F, A>)
    requires s.firing && s.queue == [] && -1 <= s.firingIndex
    ensures Advanced(s) == if s.firingIndex + 1 < |Entries(s)| then s.(firingIndex := s.firingIndex + 1)
                           else Finished(s.(firingIndex := -1))
  {
  }

  lemma {:induction false} StepStaysClosed<F, A>(s: State<F, A>, op: ListOp<F, A>)
    requires Closed(s) && !Replays(s) && Enabled(s, op)
    ensures Closed(Step(s, op)) && !Replays(Step(s, op))
  {
    match op
    case Add(fs) => if AddFires(s) { AdvancedOnce(Started(Added(s, fs))); }
    case Remove(f) => if s.list.Some? { CountedWithin(s.list.value, s.firingIndex, f); }
    case Return(wasFalse) => AdvancedOnce(Returned(s, wasFalse));
    case _ =>
  }

  lemma {:induction false} RunStaysClosed<F, A>(s: State<F, A>, ops: seq<ListOp<F, A>>)
    requires Closed(s) && !Replays(s) && Run(s, ops)
    ensures Closed(After(s, ops))
    decreases |ops|
  {
    if ops != [] {
      StepStaysClosed(s, ops[0]);
      RunStaysClosed(Step(s, ops[0]), ops[1..]);
    }
  }

  // ----- a lock with one can be undone

  /** The functions running return, and `add` replays the memory. */
  lemma {:induction false} Reopen<F, A>(s: State<F, A>) returns (ops: seq<ListOp<F, A>>)
    requires Closed(s) && Replays(s)
    ensures Run(s, ops) && !After(s, ops).locked
    decreases s.firing, |Entries(s)| - s.firingIndex
  {
    var op := if s.firing then Return(false) else Add([]);
    var t := Step(s, op);
    if s.firing {
      AdvancedOnce(s);
      var rest := Reopen(t);
      ops := [op] + rest;
      assert ops[1..] == rest;
    } else {
      ops := [op];
      AdvancedOnce(Started(Added(s, [])));
      assert ops[1..] == [];
      assert !t.locked;
    }
  }

  /** A closed list stays locked, whatever is done to it, exactly when it has no memory for `add` to replay or is a
      `once` list. */
  lemma LockLastsExact<F, A>(s: State<F, A>)
    requires Closed(s)
    ensures (forall ops :: Run(s, ops) ==> After(s, ops).locked) <==> !Replays(s)
  {
    if Replays(s) {
      var ops := Reopen(s);
      assert Run(s, ops) && !After(s, ops).locked;
    } else {
      forall ops: seq<ListOp<F, A>> | Run(s, ops) ensures After(s, ops).locked {
        RunStaysClosed(s, ops);
      }
    }
  }

  // ----- disabling lasts

  lemma {:induction false} StepStaysDisabled<F, A>(s: State<F, A>, op: ListOp<F, A>)
    requires s.locked && s.list.None? && s.memory.None? && s.queue == [] && Enabled(s, op)
    ensures var t := Step(s, op);
            t.locked && t.list.None? && t.memory.None? && t.queue == [] && (t.firing <==> s.firing && !op.Return?)
  {
    if op.Return? { AdvancedOnce(Returned(s, op.wasFalse)); }
  }

  /** A disabled list never has a function again, whatever is done to it and also when it was disabled by a function it
      was running: when that returns, the list stops firing for good. */
  lemma DisabledLasts<F, A>(s: State<F, A>, ops: seq<ListOp<F, A>>)
    requires Run(Disabled(s), ops)
    ensures var t := After(Disabled(s), ops);
            && t.locked && Entries(t) == [] && t.memory.None? && t.queue == []
            && (t.firing <==> s.firing && forall i :: 0 <= i < |ops| ==> !ops[i].Return?)
  {
    StaysDisabled(Disabled(s), ops);
  }

  lemma {:induction false} StaysDisabled<F, A>(s: State<F, A>, ops: seq<ListOp<F, A>>)
    requires s.locked && s.list.None? && s.memory.None? && s.queue == [] && Run(s, ops)
    ensures var t := After(s, ops);
            && t.locked && t.list.None? && t.memory.None? && t.queue == []
            && (t.firing <==> s.firing && forall i :: 0 <= i < |ops| ==> !ops[i].Return?)
    decreases |ops|
  {
    if ops != [] {
      StepStaysDisabled(s, ops[0]);
      StaysDisabled(Step(s, ops[0]), ops[1..]);
      assert forall i :: 0 < i < |ops| ==> ops[i] == ops[1..][i - 1];
    }
  }

  /** A list with memory is fired with 1 and locked; an `add` replays the 1, and then 2 is fired after all. */
  lemma LockUndone<F>(f: F)
    ensures var s := Fresh<F, int>(Flags(false, true, false, false));
            var ops: seq<ListOp<F, int>> := [FireWith(1), Lock];
            var more: seq<ListOp<F, int>> := [Add([f]), Return(true), FireWith(2)];
            && Run(s, ops) && After(s, ops).locked
            && Run(After(s, ops), more)
            && var t := After(After(s, ops), more);
               t.firing && t.memory == Some(2) && 0 <= t.firingIndex < |Entries(t)| && Entries(t)[t.firingIndex] == f
  {
    var flags := Flags(false, true, false, false);
    var s := Fresh<F, int>(flags);
    var fire, lock, add: ListOp<F, int>, back, again := FireWith(1), Lock, Add([f]), Return(true), FireWith(2);
    var fired := State(flags, Some([]), [], -1, Some(1), false, true, false);
    var locked := fired.(locked := true);
    var replaying := State(flags, Some([f]), [], 0, Some(1), true, true, false);
    var idle := replaying.(firingIndex := -1, firing := false);
    assert Step(s, fire) == fired && Step(fired, lock) == locked;
    assert [f][1..] == [] && [] + [f] == [f];
    assert Pushed([], false, [f]) == [f];
    assert Added(locked, [f]) == State(flags, Some([f]), [1], -1, Some(1), false, true, true);
    AdvancedOnce(Started(Added(locked, [f])));
    assert Step(locked, add) == replaying && Step(replaying, back) == idle;
    assert Step(idle, again) == replaying.(memory := Some(2));
    assert [fire] + [lock] == [fire, lock] && [back] + [again] == [back, again];
    OneFirst(fired, lock, []);
    OneFirst(s, fire, [lock]);
    OneFirst(idle, again, []);
    OneFirst(replaying, back, [again]);
    OneFirst(locked, add, [back, again]);
  }

  lemma OneFirst<F, A>(s: State<F, A>, op: ListOp<F, A>, rest: seq<ListOp<F, A>>)
    requires Enabled(s, op) && Run(Step(s, op), rest)
    ensures var ops := [op] + rest; Run(s, ops) && After(s, ops) == After(Step(s, op), rest)
  {
    assert ([op] + rest)[1..] == rest;
  }
}
