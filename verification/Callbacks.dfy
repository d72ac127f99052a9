/** jQuery.Callbacks: a list of functions that may be changed, and fired again, by the functions it is running.
    A firing is cut into the steps between which user code runs. */
module Callbacks {
  import opened Options
  import opened Lists

  datatype Flags = Flags(once: bool, memory: bool, unique: bool, stopOnFalse: bool)

  /** The closure variables. `list` is `None` once it has become the empty string; `memory` is `None` when falsy. */
  datatype State<F, A> = State(flags: Flags, list: Option<seq<F>>, queue: seq<A>, firingIndex: int,
                               memory: Option<A>, firing: bool, fired: bool, locked: bool)

  /** What `fire` does next: run a function, or return. */
  datatype Next<F, A> = Run(f: F, args: Option<A>) | Ended

  function Fresh<F, A>(flags: Flags): State<F, A> {
    State(flags, Some([]), [], -1, None, false, false, false)
  }

  function Entries<F, A>(s: State<F, A>): seq<F> {
    if s.list.Some? then s.list.value else []
  }

  function Pushed<F(==)>(list: seq<F>, unique: bool, fs: seq<F>): seq<F>
    decreases |fs|
  {
    if fs == [] then list
    else Pushed(if unique && fs[0] in list then list else list + [fs[0]], unique, fs[1..])
  }

  /** Does `add` fire the remembered values once it has added the functions? */
  predicate AddFires<F, A>(s: State<F, A>) {
    s.list.Some? && s.memory.Some? && !s.firing
  }

  /** `add`, up to the firing. */
  function Added<F(==), A>(s: State<F, A>, fs: seq<F>): State<F, A> {
    if s.list.None? then s
    else
      var t := s.(list := Some(Pushed(s.list.value, s.flags.unique, fs)));
      if AddFires(s) then t.(firingIndex := |s.list.value| - 1, queue := s.queue + [s.memory.value]) else t
  }

  /** The number of entries `f` at positions up to `at`. */
  function CountUpTo<F(==)>(list: seq<F>, at: int, f: F): nat {
    if list == [] then 0
    else
      var n := |list| - 1;
      CountUpTo(list[..n], at, f) + if list[n] == f && n <= at then 1 else 0
  }

  /** `remove` of one function: all its entries go, and the firing index stays on the entry it points at. */
  function Removed<F(==), A>(s: State<F, A>, f: F): State<F, A> {
    if s.list.None? then s
    else
      s.(list := Some(Without(s.list.value, f)),
         firingIndex := s.firingIndex - CountUpTo(s.list.value, s.firingIndex, f))
  }

  function Emptied<F, A>(s: State<F, A>): State<F, A> {
    if s.list.Some? then s.(list := Some([])) else s
  }

  function Disabled<F, A>(s: State<F, A>): State<F, A> {
    s.(locked := true, queue := [], list := None, memory := None)
  }

  function Locked<F, A>(s: State<F, A>): State<F, A> {
    var t := s.(locked := true, queue := []);
    if s.memory.None? then t.(list := None) else t
  }

  /** `fireWith`, up to the firing; it fires when the list was not firing already. */
  function Queued<F, A>(s: State<F, A>, args: A): State<F, A> {
    if s.locked then s else s.(queue := s.queue + [args])
  }

  predicate FireWithFires<F, A>(s: State<F, A>) {
    !s.locked && !s.firing
  }

  /** `fire`, up to its inner loop. */
  function Started<F, A>(s: State<F, A>): State<F, A>
    requires s.queue != []
  {
    s.(locked := s.flags.once, fired := true, firing := true, memory := Some(s.queue[0]), queue := s.queue[1..])
  }

  /** After the outer loop. */
  function Finished<F, A>(s: State<F, A>): State<F, A> {
    var t := s.(memory := if s.flags.memory then s.memory else None, firing := false);
    if !s.locked then t else t.(list := if t.memory.Some? then Some([]) else None)
  }

  /** From the test of the inner loop to the next call of a function, or to the end of `fire`. */
  function Advanced<F, A>(s: State<F, A>): (r: State<F, A>)
    requires s.firing && -1 <= s.firingIndex
    ensures if r.firing then 0 <= r.firingIndex < |Entries(r)| else r.firingIndex == -1
    decreases |s.queue|
  {
    if s.firingIndex + 1 < |Entries(s)| then s.(firingIndex := s.firingIndex + 1)
    else
      var t := s.(firingIndex := -1);
      if s.queue == [] then Finished(t)
      else Advanced(t.(memory := Some(s.queue[0]), queue := s.queue[1..]))
  }

  /** At the end of the list: the next arguments of the queue, or the end of `fire`. */
  function NextPass<F, A>(s: State<F, A>): State<F, A> {
    var t := s.(firingIndex := -1);
    if s.queue == [] then Finished(t) else t.(memory := Some(s.queue[0]), queue := s.queue[1..])
  }

  lemma AdvancedPass<F, A>(s: State<F, A>)
    requires s.firing && -1 <= s.firingIndex && s.firingIndex + 1 >= |Entries(s)|
    ensures Advanced(s) == if s.queue == [] then NextPass(s) else Advanced(NextPass(s))
  {
  }

  /** The function has returned. */
  function Returned<F, A>(s: State<F, A>, wasFalse: bool): State<F, A> {
    if wasFalse && s.flags.stopOnFalse then s.(firingIndex := |Entries(s)|, memory := None) else s
  }

  // ----- what the calls and flags do

  ghost predicate NoDuplicates<F>(list: seq<F>) {
    forall i, j :: 0 <= i < j < |list| ==> list[i] != list[j]
  }

  /** A list that is not unique takes every function; a unique one takes those it does not hold yet. */
  lemma {:induction false} PushedMeaning<F>(list: seq<F>, unique: bool, fs: seq<F>)
    ensures var r := Pushed(list, unique, fs);
            && list <= r && (forall f :: f in r <==> f in list || f in fs)
            && (!unique ==> r == list + fs)
            && (unique && NoDuplicates(list) ==> NoDuplicates(r))
    decreases |fs|
  {
    if fs == [] {
      assert list + fs == list;
    } else {
      var next := if unique && fs[0] in list then list else list + [fs[0]];
      assert fs == [fs[0]] + fs[1..];
      if unique && NoDuplicates(list) { assert NoDuplicates(next); }
      PushedMeaning(next, unique, fs[1..]);
      if !unique { Regroup(list, fs[0], fs[1..]); }
    }
  }

  lemma Regroup<F>(list: seq<F>, f: F, fs: seq<F>)
    ensures list + [f] + fs == list + ([f] + fs)
  {
  }

  /** On a stop-on-false list, a function that returns false is the last of its pass, and `add` will not replay its
      arguments; any other result changes nothing. */
  lemma ReturnMeaning<F, A>(s: State<F, A>, wasFalse: bool)
    requires s.firing && -1 <= s.firingIndex
    ensures var t := Advanced(Returned(s, wasFalse));
            if !wasFalse || !s.flags.stopOnFalse then t == Advanced(s)
            else if s.queue == [] then !t.firing && t.memory == None
            else if s.list.Some? && s.list.value != [] then
              t.firing && t.firingIndex == 0 && t.memory == Some(s.queue[0]) && t.queue == s.queue[1..]
            else !t.firing
  {
    if Entries(s) == [] { NothingToRun(Returned(s, wasFalse)); }
  }

  /** An emptied or disabled list runs nothing more, and a disabled one never takes anything again. */
  lemma EmptyMeaning<F, A>(s: State<F, A>, fs: seq<F>, args: A)
    requires s.firing && -1 <= s.firingIndex
    ensures !Advanced(Emptied(s)).firing && !Advanced(Disabled(s)).firing
    ensures var t := Disabled(s);
            !AddFires(t) && Entries(Added(t, fs)) == [] && !FireWithFires(t) && Queued(t, args) == t
  {
    NothingToRun(Emptied(s));
    NothingToRun(Disabled(s));
  }

  lemma {:induction false} NothingToRun<F, A>(s: State<F, A>)
    requires s.firing && -1 <= s.firingIndex && Entries(s) == []
    ensures !Advanced(s).firing
    decreases |s.queue|
  {
    if s.queue != [] { NothingToRun(s.(firingIndex := -1, memory := Some(s.queue[0]), queue := s.queue[1..])); }
  }

  // ----- the object

  class CallbackList<F(==), A> {
    const flags: Flags
    var list: Option<seq<F>>
    var queue: seq<A>
    var firingIndex: int
    var memory: Option<A>
    var firing: bool
    var fired: bool
    var locked: bool

    ghost function Now(): State<F, A>
      reads this
    {
      State(flags, list, queue, firingIndex, memory, firing, fired, locked)
    }

    constructor (flags: Flags)
      ensures Now() == Fresh(flags)
    {
      this.flags, list, queue, firingIndex := flags, Some([]), [], -1;
      memory, firing, fired, locked := None, false, false, false;
    }

    method Add(fs: seq<F>) returns (fire: bool)
      modifies this
      ensures Now() == Added(old(Now()), fs) && fire == AddFires(old(Now()))
    {
      fire := false;
      if list.Some? {
        fire := memory.Some? && !firing;
        if fire {
          firingIndex := |list.value| - 1;
          queue := queue + [memory.value];
        }
        var l := list.value;
        for i := 0 to |fs|
          invariant Pushed(old(list).value, flags.unique, fs) == Pushed(l, flags.unique, fs[i..])
        {
          assert fs[i..][1..] == fs[i + 1..];
          if !flags.unique || fs[i] !in l { l := l + [fs[i]]; }
        }
        list := Some(l);
      }
    }

    method Remove(f: F)
      requires -1 <= firingIndex
      modifies this
      ensures Now() == Removed(old(Now()), f)
    {
      if list.None? { return; }
      var l, at := RemoveEntries(list.value, firingIndex, f);
      list, firingIndex := Some(l), at;
    }

    method Has(f: F) returns (r: bool)
      ensures r <==> f in Entries(Now())
    {
      r := list.Some? && f in list.value;
    }

    method Empty()
      modifies this
      ensures Now() == Emptied(old(Now()))
    {
      if list.Some? { list := Some([]); }
    }

    method Disable()
      modifies this
      ensures Now() == Disabled(old(Now()))
    {
      locked, queue := true, [];
      list, memory := None, None;
    }

    method Lock()
      modifies this
      ensures Now() == Locked(old(Now()))
    {
      locked, queue := true, [];
      if memory.None? { list := None; }
    }

    method FireWith(args: A) returns (fire: bool)
      modifies this
      ensures Now() == Queued(old(Now()), args) && fire == FireWithFires(old(Now()))
    {
      fire := false;
      if !locked {
        queue := queue + [args];
        fire := !firing;
      }
    }

    /** The beginning of `fire`. */
    method Start()
      requires queue != []
      modifies this
      ensures Now() == Started(old(Now()))
    {
      locked := flags.once;
      fired, firing := true, true;
      memory, queue := Some(queue[0]), queue[1..];
    }

    /** `fire`, to the next function to run or to its end. */
    method Advance() returns (next: Next<F, A>)
      requires firing && -1 <= firingIndex
      modifies this
      ensures Now() == Advanced(old(Now()))
      ensures next == if firing then Run(Entries(Now())[firingIndex], memory) else Ended
    {
      firingIndex := firingIndex + 1;
      while firingIndex >= (if list.Some? then |list.value| else 0)
        invariant firing && 0 <= firingIndex
        invariant Advanced(old(Now())) == Advanced(Now().(firingIndex := firingIndex - 1))
        decreases |queue|, firingIndex
      {
        ghost var s := Now().(firingIndex := firingIndex - 1);
        AdvancedPass(s);
        var more := EndPass();
        assert Now() == NextPass(s);
        if !more { return Ended; }
        firingIndex := firingIndex + 1;
        assert Now().(firingIndex := firingIndex - 1) == NextPass(s);
      }
      next := Run(list.value[firingIndex], memory);
    }

    /** The end of `fire`. */
    method Finish()
      modifies this
      ensures Now() == Finished(old(Now()))
    {
      if !flags.memory { memory := None; }
      firing := false;
      if locked { list := if memory.Some? then Some([]) else None; }
    }

    /** The end of the inner loop of `fire`. */
    method EndPass() returns (more: bool)
      modifies this
      ensures Now() == NextPass(old(Now())) && more == (old(queue) != [])
    {
      firingIndex := -1;
      more := queue != [];
      if more {
        memory, queue := Some(queue[0]), queue[1..];
      } else {
        Finish();
      }
    }

    method Return(wasFalse: bool)
      modifies this
      ensures Now() == Returned(old(Now()), wasFalse)
    {
      if wasFalse && flags.stopOnFalse {
        firingIndex := if list.Some? then |list.value| else 0;
        memory := None;
      }
    }
  }

  /** The splicing loop of `remove`. */
  method RemoveEntries<F(==)>(was: seq<F>, at: int, f: F) returns (list: seq<F>, firingIndex: int)
    requires -1 <= at
    ensures list == Without(was, f) && firingIndex == at - CountUpTo(was, at, f)
  {
    list, firingIndex := was, at;
    // `was[..seen]` has been searched, leaving `kept`; the search resumes at `index` in the shortened list
    ghost var seen, kept, rest := 0, [], was;
    var index := 0;
    assert was[..0] == [];
    while index < |list|
      invariant 0 <= seen <= |was| && kept == Without(was[..seen], f) && index == |kept| && rest == was[seen..]
      invariant list == kept + rest
      invariant firingIndex == at - CountUpTo(was[..seen], at, f)
      invariant if seen <= at then firingIndex - at == index - seen else firingIndex < index
      decreases |was| - seen
    {
      WithoutNext(was, seen, at, f);
      rest := was[seen + 1..];
      SpliceAt(kept, was[seen], rest);
      if list[index] == f {
        list := list[..index] + list[index + 1..];
        if index <= firingIndex { firingIndex := firingIndex - 1; }
      } else {
        kept := kept + [was[seen]];
        index := index + 1;
      }
      seen := seen + 1;
    }
    assert was[..seen] == was;
  }

  lemma SpliceAt<F>(a: seq<F>, x: F, b: seq<F>)
    ensures var s := a + ([x] + b);
            s[|a|] == x && s[..|a|] + s[|a| + 1..] == a + b && s == (a + [x]) + b
  {
  }

  lemma WithoutNext<F>(was: seq<F>, n: nat, at: int, f: F)
    requires n < |was|
    ensures was[n..] == [was[n]] + was[n + 1..]
    ensures CountUpTo(was[..n + 1], at, f) == CountUpTo(was[..n], at, f) + if was[n] == f && n <= at then 1 else 0
    ensures Without(was[..n + 1], f) == Without(was[..n], f) + if was[n] == f then [] else [was[n]]
  {
    assert was[..n + 1][..n] == was[..n];
  }
}
