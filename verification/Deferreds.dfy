/** jQuery.Deferred: the one-shot promise protocol on three callback lists, under any use its callbacks make of it. */
module Deferreds {
  import opened Options
  import opened Callbacks

  datatype ListId = Done | Failed | Progress

  datatype Fate = Pending | Resolved | Rejected

  /** What the lists hold: the functions `Deferred` installs itself, and the callbacks registered by users. */
  datatype Fn = SetState(fate: Fate) | DisableList(l: ListId) | LockList(l: ListId) | User(reg: nat)

  datatype Event<A> = Ran(l: ListId, reg: nat, args: Option<A>)

  /** A firing in progress: inside a user callback, or inside the library. */
  datatype Frame = Frame(l: ListId, inUser: bool)

  datatype Settle<A> = Settle(l: ListId, args: A)

  /** The deferred, the call stack of its firings, and what has happened: the registrations in order (`regs[i]` is
      the list of registration `i`), the callbacks run, the calls of `resolve` and `reject`, and the number of
      installed functions run. */
  datatype Machine<A> = Machine(done: State<Fn, A>, fail: State<Fn, A>, progress: State<Fn, A>, fate: Fate,
                                stack: seq<Frame>, regs: seq<ListId>, log: seq<Event<A>>, settles: seq<Settle<A>>,
                                stage: nat)

  datatype Op<A> =
    | Register(l: ListId)            // done, fail, progress
    | Fire(l: ListId, args: A)       // resolveWith, rejectWith, notifyWith
    | Return(wasFalse: bool)         // the running callback returns
    | Continue                       // the library goes on firing

  const ONCE_MEMORY := Flags(true, true, false, false)
  const MEMORY := Flags(false, true, false, false)

  function Other(l: ListId): ListId {
    if l.Done? then Failed else Done
  }

  function FateOf(l: ListId): Fate {
    if l.Done? then Resolved else Rejected
  }

  function Installed(l: ListId): seq<Fn> {
    [SetState(FateOf(l)), DisableList(Other(l)), LockList(Progress)]
  }

  function Get<A>(m: Machine<A>, l: ListId): State<Fn, A> {
    match l
    case Done => m.done
    case Failed => m.fail
    case Progress => m.progress
  }

  function Put<A>(m: Machine<A>, l: ListId, s: State<Fn, A>): Machine<A> {
    match l
    case Done => m.(done := s)
    case Failed => m.(fail := s)
    case Progress => m.(progress := s)
  }

  function Initial<A>(): Machine<A> {
    Machine(Fresh(ONCE_MEMORY).(list := Some(Installed(Done))), Fresh(ONCE_MEMORY).(list := Some(Installed(Failed))),
            Fresh(MEMORY), Pending, [], [], [], [], 0)
  }

  function Top<A>(m: Machine<A>): Frame
    requires m.stack != []
  {
    m.stack[|m.stack| - 1]
  }

  /** Is user code running, at top level or in a callback? */
  predicate InUser<A>(m: Machine<A>) {
    m.stack == [] || Top(m).inUser
  }

  predicate Enabled<A>(m: Machine<A>, op: Op<A>) {
    match op
    case Register(_) => InUser(m)
    case Fire(_, _) => InUser(m)
    case Return(_) => m.stack != [] && Top(m).inUser
    case Continue => m.stack != [] && !Top(m).inUser && Get(m, Top(m).l).firing && -1 <= Get(m, Top(m).l).firingIndex
  }

  function WithTop<A>(m: Machine<A>, f: Frame): Machine<A>
    requires m.stack != []
  {
    m.(stack := m.stack[|m.stack| - 1 := f])
  }

  /** A list that has just been added to or queued on, fired if it fires. */
  function Launched<A>(m: Machine<A>, l: ListId, s: State<Fn, A>, fires: bool): Machine<A>
    requires fires ==> s.queue != []
  {
    if fires then Put(m, l, Started(s)).(stack := m.stack + [Frame(l, false)]) else Put(m, l, s)
  }

  function Registering<A>(m: Machine<A>, l: ListId): Machine<A> {
    var s := Get(m, l);
    Launched(m.(regs := m.regs + [l]), l, Added(s, [User(|m.regs|)]), AddFires(s))
  }

  function Firing<A>(m: Machine<A>, l: ListId, args: A): Machine<A> {
    var s := Get(m, l);
    var n := if l.Progress? then m else m.(settles := m.settles + [Settle(l, args)]);
    Launched(n, l, Queued(s, args), FireWithFires(s))
  }

  /** The effect of the function the list `l` has advanced to. */
  function Called<A>(m: Machine<A>, l: ListId): Machine<A>
    requires m.stack != [] && Get(m, l).firing && 0 <= Get(m, l).firingIndex < |Entries(Get(m, l))|
  {
    match Entries(Get(m, l))[Get(m, l).firingIndex]
    case SetState(fate) => m.(fate := fate, stage := m.stage + 1)
    case DisableList(o) => Put(m, o, Disabled(Get(m, o))).(stage := m.stage + 1)
    case LockList(o) => Put(m, o, Locked(Get(m, o))).(stage := m.stage + 1)
    case User(reg) => WithTop(m.(log := m.log + [Ran(l, reg, Get(m, l).memory)]), Frame(l, true))
  }

  function Continuing<A>(m: Machine<A>): Machine<A>
    requires Enabled(m, Continue)
  {
    var l := Top(m).l;
    var s := Advanced(Get(m, l));
    if s.firing then Called(Put(m, l, s), l) else Put(m, l, s).(stack := m.stack[..|m.stack| - 1])
  }

  function Step<A>(m: Machine<A>, op: Op<A>): Machine<A>
    requires Enabled(m, op)
  {
    match op
    case Register(l) => Registering(m, l)
    case Fire(l, args) => Firing(m, l, args)
    case Return(wasFalse) =>
      WithTop(Put(m, Top(m).l, Returned(Get(m, Top(m).l), wasFalse)), Frame(Top(m).l, false))
    case Continue => Continuing(m)
  }

  // ----- what the history says should have run

  /** The registrations on list `l`, in order. */
  function RegsOf(regs: seq<ListId>, l: ListId): seq<nat> {
    if regs == [] then []
    else
      var n := |regs| - 1;
      RegsOf(regs[..n], l) + if regs[n] == l then [n] else []
  }

  function RunsOf<A>(log: seq<Event<A>>, l: ListId): seq<Event<A>> {
    if log == [] then []
    else
      var n := |log| - 1;
      RunsOf(log[..n], l) + if log[n].l == l then [log[n]] else []
  }

  function Users(regs: seq<nat>): (r: seq<Fn>)
    ensures |r| == |regs| && forall i :: 0 <= i < |r| ==> r[i] == User(regs[i])
  {
    seq(|regs|, i requires 0 <= i < |regs| => User(regs[i]))
  }

  /** Every registration once, in order, with the arguments `args`. */
  function Expected<A>(l: ListId, regs: seq<nat>, args: A): (r: seq<Event<A>>)
    ensures |r| == |regs| && forall i :: 0 <= i < |r| ==> r[i] == Ran(l, regs[i], Some(args))
  {
    seq(|regs|, i requires 0 <= i < |regs| => Ran(l, regs[i], Some(args)))
  }

  // ----- the invariant

  ghost predicate OnStack(stack: seq<Frame>, l: ListId) {
    exists i :: 0 <= i < |stack| && stack[i].l == l
  }

  ghost predicate StackSound<A>(m: Machine<A>) {
    && (forall i, j :: 0 <= i < j < |m.stack| ==> m.stack[i].l != m.stack[j].l)
    && (forall i :: 0 <= i < |m.stack| - 1 ==> m.stack[i].inUser)
    && (forall l: ListId :: Get(m, l).firing <==> OnStack(m.stack, l))
    && (forall l: ListId :: -1 <= Get(m, l).firingIndex && !Get(m, l).flags.stopOnFalse)
    && (forall f: Fn :: f in Entries(m.progress) ==> f.User?)
  }

  /** A `done` or `fail` list that neither has fired nor was disabled. */
  ghost predicate Untouched<A>(s: State<Fn, A>, l: ListId, regs: seq<nat>) {
    s == Fresh(ONCE_MEMORY).(list := Some(Installed(l) + Users(regs)))
  }

  ghost predicate Dead<A>(s: State<Fn, A>) {
    s.list.None? && s.queue == [] && s.memory.None? && s.locked && !s.firing
  }

  /** What list `l` has still to run. */
  function Rest(l: ListId, stage: nat, regs: seq<nat>, k: nat): seq<Fn>
    requires stage <= 3 && k <= |regs|
  {
    Installed(l)[stage..] + Users(regs[k..])
  }

  /** The list that was fired first, with `k` of its registrations run and `stage` of the installed functions. */
  ghost predicate Winner<A>(s: State<Fn, A>, l: ListId, args: A, regs: seq<nat>, k: nat, stage: nat) {
    && s.flags == ONCE_MEMORY && s.queue == [] && s.memory == Some(args) && s.locked && s.list.Some?
    && k <= |regs| && stage <= 3
    && (if s.firing then
          -1 <= s.firingIndex < |s.list.value| &&
          s.list.value[s.firingIndex + 1..] == Rest(l, stage, regs, k)
        else
          s.firingIndex == -1 && s.list.value == [] && stage == 3 && k == |regs|)
  }

  ghost predicate Unsettled<A>(m: Machine<A>) {
    && m.fate == Pending && m.stage == 0
    && Untouched(m.done, Done, RegsOf(m.regs, Done)) && RunsOf(m.log, Done) == []
    && Untouched(m.fail, Failed, RegsOf(m.regs, Failed)) && RunsOf(m.log, Failed) == []
  }

  /** The parts of a machine whose list `w` was fired first, with `args`: the state of that list and of the other,
      the registrations on them, their runs, and the fate. */
  ghost predicate SettledParts<A>(ws: State<Fn, A>, os: State<Fn, A>, w: ListId, args: A, regs: seq<nat>,
                                  oregs: seq<nat>,
                                  runs: seq<Event<A>>, oruns: seq<Event<A>>, fate: Fate, stage: nat)
  {
    && !w.Progress?
    && Winner(ws, w, args, regs, |runs|, stage) && runs == Expected(w, regs[..|runs|], args)
    && fate == (if stage == 0 then Pending else FateOf(w))
    && oruns == []
    && (if stage < 2 then Untouched(os, Other(w), oregs) else Dead(os))
  }

  ghost predicate Settled<A>(m: Machine<A>, w: ListId, args: A) {
    && SettledParts(Get(m, w), Get(m, Other(w)), w, args, RegsOf(m.regs, w), RegsOf(m.regs, Other(w)),
                    RunsOf(m.log, w), RunsOf(m.log, Other(w)), m.fate, m.stage)
    && (m.stage < 3 ==> m.stack != [] && Top(m) == Frame(w, false))
  }

  ghost predicate Protocol<A>(m: Machine<A>) {
    if m.settles == [] then Unsettled(m) else Settled(m, m.settles[0].l, m.settles[0].args)
  }

  ghost predicate Sound<A>(m: Machine<A>) {
    StackSound(m) && Protocol(m)
  }

  lemma InitialSound<A>()
    ensures Sound<A>(Initial())
  {
    var m := Initial<A>();
    assert Installed(Done) + Users([]) == Installed(Done);
    assert Installed(Failed) + Users([]) == Installed(Failed);
  }

  lemma RegsExtended(regs: seq<ListId>, l: ListId, k: ListId)
    ensures RegsOf(regs + [l], k) == RegsOf(regs, k) + if l == k then [|regs|] else []
  {
  }

  lemma RunsExtended<A>(log: seq<Event<A>>, e: Event<A>, k: ListId)
    ensures RunsOf(log + [e], k) == RunsOf(log, k) + if e.l == k then [e] else []
  {
  }

  // ----- the steps keep the invariant

  lemma LaunchedStack<A>(m: Machine<A>, l: ListId, s: State<Fn, A>, fires: bool)
    requires StackSound(m) && InUser(m) && (fires ==> s.queue != [] && !s.firing)
    requires s.firing == Get(m, l).firing && -1 <= s.firingIndex && !s.flags.stopOnFalse
    requires l.Progress? ==> forall f: Fn :: f in Entries(s) ==> f.User?
    ensures StackSound(Launched(m, l, s, fires))
  {
    var n := Launched(m, l, s, fires);
    forall k: ListId ensures Get(n, k) == if k != l then Get(m, k) else if fires then Started(s) else s {}
    assert n.progress == Get(n, Progress);
    if fires {
      var top := |m.stack|;
      assert n.stack[top] == Frame(l, false);
      forall i | 0 <= i < top ensures n.stack[i].l != l && n.stack[i].inUser {
        assert n.stack[i] == m.stack[i];
      }
      forall k: ListId ensures Get(n, k).firing <==> OnStack(n.stack, k) {
        if k != l && Get(m, k).firing {
          var i :| 0 <= i < |m.stack| && m.stack[i].l == k;
          assert n.stack[i].l == k;
        }
      }
    }
  }

  lemma AddedOne<A>(s: State<Fn, A>, f: Fn)
    ensures var t := Added(s, [f]);
            && t.firing == s.firing && t.flags == s.flags && t.memory == s.memory && t.locked == s.locked
            && (forall g :: g in Entries(t) ==> g in Entries(s) || g == f)
            && (AddFires(s) ==> t.queue != []) && (-1 <= s.firingIndex ==> -1 <= t.firingIndex)
            && (!s.flags.unique && s.list.Some? ==> t.list == Some(s.list.value + [f]))
  {
    if s.list.Some? {
      assert Pushed(s.list.value, s.flags.unique, [f]) ==
             if s.flags.unique && f in s.list.value then s.list.value else s.list.value + [f];
    }
  }

  // what the steps do to one `done` or `fail` list

  lemma UsersExtended(regs: seq<nat>, reg: nat)
    ensures Users(regs + [reg]) == Users(regs) + [User(reg)]
  {
  }

  lemma UntouchedRegisters<A>(s: State<Fn, A>, l: ListId, regs: seq<nat>, reg: nat)
    requires Untouched(s, l, regs)
    ensures !AddFires(s) && Untouched(Added(s, [User(reg)]), l, regs + [reg])
  {
    AddedOne(s, User(reg));
    UsersExtended(regs, reg);
    assert Installed(l) + Users(regs) + [User(reg)] == Installed(l) + (Users(regs) + [User(reg)]);
  }

  lemma RestGrows(list: seq<Fn>, at: nat, l: ListId, regs: seq<nat>, k: nat, reg: nat)
    requires at <= |list| && k <= |regs| && list[at..] == Rest(l, 3, regs, k)
    ensures (list + [User(reg)])[at..] == Rest(l, 3, regs + [reg], k)
  {
  }

  lemma WinnerRegisters<A>(s: State<Fn, A>, l: ListId, args: A, regs: seq<nat>, k: nat, reg: nat)
    requires Winner(s, l, args, regs, k, 3)
    ensures AddFires(s) == !s.firing && (AddFires(s) ==> Added(s, [User(reg)]).queue != [])
    ensures var t := Added(s, [User(reg)]);
            Winner(if AddFires(s) then Started(t) else t, l, args, regs + [reg], k, 3)
  {
    AddedOne(s, User(reg));
    if s.firing {
      RestGrows(s.list.value, s.firingIndex + 1, l, regs, k, reg);
    } else {
      assert s.list.value[0..] == Rest(l, 3, regs, k);
      RestGrows(s.list.value, 0, l, regs, k, reg);
    }
  }

  lemma RestStep(list: seq<Fn>, at: nat, l: ListId, stage: nat, regs: seq<nat>, k: nat)
    requires at <= |list| && stage <= 3 && k <= |regs| && list[at..] == Rest(l, stage, regs, k)
    ensures if stage < 3 then
              at < |list| && list[at] == Installed(l)[stage] && list[at + 1..] == Rest(l, stage + 1, regs, k)
            else if k < |regs| then
              at < |list| && list[at] == User(regs[k]) && list[at + 1..] == Rest(l, stage, regs, k + 1)
            else
              at == |list|
  {
  }

  /** The firing of the first list goes on with the next installed function, then with the next registration. */
  lemma WinnerContinues<A>(s: State<Fn, A>, l: ListId, args: A, regs: seq<nat>, k: nat, stage: nat)
    requires Winner(s, l, args, regs, k, stage) && s.firing
    ensures var t := Advanced(s);
            if stage < 3 then
              t.firing && Entries(t)[t.firingIndex] == Installed(l)[stage] && Winner(t, l, args, regs, k, stage + 1)
            else if k < |regs| then
              t.firing && Entries(t)[t.firingIndex] == User(regs[k]) && Winner(t, l, args, regs, k + 1, stage)
            else
              !t.firing && Winner(t, l, args, regs, k, stage)
  {
    RestStep(s.list.value, s.firingIndex + 1, l, stage, regs, k);
  }

  // the steps of the machine

  lemma SameStack<A>(m: Machine<A>, n: Machine<A>)
    requires StackSound(m) && n.done == m.done && n.fail == m.fail && n.progress == m.progress && n.stack == m.stack
    ensures StackSound(n)
  {
  }

  /** A registration in user code leaves everything but its own list and the call stack alone. */
  lemma RegisterFrame<A>(m: Machine<A>, l: ListId)
    ensures var s, n, reg := Get(m, l), Registering(m, l), |m.regs|;
            && n.log == m.log && n.stage == m.stage && n.fate == m.fate && n.regs == m.regs + [l]
            && (forall k: ListId :: k != l ==> Get(n, k) == Get(m, k))
            && (AddFires(s) ==> Added(s, [User(reg)]).queue != [])
            && Get(n, l) == if AddFires(s) then Started(Added(s, [User(reg)])) else Added(s, [User(reg)])
  {
  }

  lemma RegisterUnsettled<A>(m: Machine<A>, l: ListId)
    requires Unsettled(m)
    ensures Unsettled(Registering(m, l))
  {
    var n := Registering(m, l);
    RegisterFrame(m, l);
    RegsExtended(m.regs, l, Done);
    RegsExtended(m.regs, l, Failed);
    assert forall k: ListId :: !k.Progress? && k != l ==> RegsOf(n.regs, k) == RegsOf(m.regs, k);
    assert Get(n, Done) == n.done && Get(n, Failed) == n.fail;
    if !l.Progress? {
      UntouchedRegisters(Get(m, l), l, RegsOf(m.regs, l), |m.regs|);
    }
  }

  lemma RegisterSettled<A>(m: Machine<A>, l: ListId, w: ListId, args: A)
    requires Settled(m, w, args) && InUser(m)
    ensures Settled(Registering(m, l), w, args)
  {
    var n, o := Registering(m, l), Other(w);
    var regs, k := RegsOf(m.regs, w), |RunsOf(m.log, w)|;
    RegisterFrame(m, l);
    RegsExtended(m.regs, l, w);
    assert m.stage == 3;
    if l == w {
      WinnerRegisters(Get(m, w), w, args, regs, k, |m.regs|);
      assert RegsOf(n.regs, w) == regs + [|m.regs|];
      assert (regs + [|m.regs|])[..k] == regs[..k];
      assert Get(n, o) == Get(m, o);
    } else {
      assert RegsOf(n.regs, w) == regs;
      assert Get(n, w) == Get(m, w);
      assert Dead(Get(n, o));
    }
  }

  lemma RegisterSound<A>(m: Machine<A>, l: ListId)
    requires Sound(m) && InUser(m)
    ensures Sound(Registering(m, l))
  {
    var s, counted := Get(m, l), m.(regs := m.regs + [l]);
    AddedOne(s, User(|m.regs|));
    SameStack(m, counted);
    LaunchedStack(counted, l, Added(s, [User(|m.regs|)]), AddFires(s));
    if m.settles == [] {
      RegisterUnsettled(m, l);
    } else {
      RegisterSettled(m, l, m.settles[0].l, m.settles[0].args);
    }
  }

  lemma FireFrame<A>(m: Machine<A>, l: ListId, args: A)
    ensures var s, n := Get(m, l), Firing(m, l, args);
            && n.log == m.log && n.stage == m.stage && n.fate == m.fate && n.regs == m.regs
            && (forall k: ListId :: k != l ==> Get(n, k) == Get(m, k))
            && Get(n, l) == (if FireWithFires(s) then Started(Queued(s, args)) else Queued(s, args))
            && n.stack == (if FireWithFires(s) then m.stack + [Frame(l, false)] else m.stack)
            && n.settles == if l.Progress? then m.settles else m.settles + [Settle(l, args)]
  {
  }

  lemma FireSettled<A>(m: Machine<A>, l: ListId, fired: A, w: ListId, args: A)
    requires Settled(m, w, args) && InUser(m)
    ensures Settled(Firing(m, l, fired), w, args)
  {
  }

  lemma FireUnsettled<A>(m: Machine<A>, l: ListId, args: A)
    requires Unsettled(m) && !l.Progress?
    ensures Settled(Firing(m, l, args), l, args)
  {
  }

  lemma FireStack<A>(m: Machine<A>, l: ListId, args: A)
    requires Sound(m) && InUser(m)
    ensures StackSound(Firing(m, l, args))
  {
    var settling := if l.Progress? then m else m.(settles := m.settles + [Settle(l, args)]);
    SameStack(m, settling);
    LaunchedStack(settling, l, Queued(Get(m, l), args), FireWithFires(Get(m, l)));
    FireFrame(m, l, args);
  }

  lemma FireSound<A>(m: Machine<A>, l: ListId, args: A)
    requires Sound(m) && InUser(m)
    ensures Sound(Firing(m, l, args))
  {
    FireStack(m, l, args);
    FireProtocol(m, l, args);
  }

  lemma FireProtocol<A>(m: Machine<A>, l: ListId, args: A)
    requires Protocol(m) && InUser(m)
    ensures Protocol(Firing(m, l, args))
  {
    var n := Firing(m, l, args);
    FireSettles(m, l, args);
    if m.settles != [] {
      FireSettled(m, l, args, m.settles[0].l, m.settles[0].args);
      SettledProtocol(n, m.settles[0]);
    } else if !l.Progress? {
      FireUnsettled(m, l, args);
      SettledProtocol(n, Settle(l, args));
    } else {
      FireProgress(m, args);
    }
  }

  lemma FireSettles<A>(m: Machine<A>, l: ListId, args: A)
    ensures Firing(m, l, args).settles == if l.Progress? then m.settles else m.settles + [Settle(l, args)]
  {
  }

  lemma SettledProtocol<A>(n: Machine<A>, first: Settle<A>)
    requires n.settles != [] && n.settles[0] == first && Settled(n, first.l, first.args)
    ensures Protocol(n)
  {
  }

  lemma FireProgress<A>(m: Machine<A>, args: A)
    requires Unsettled(m)
    ensures Unsettled(Firing(m, Progress, args))
  {
  }

  /** Another state for one list, and whether user code runs on top. */
  lemma PutStack<A>(m: Machine<A>, l: ListId, s: State<Fn, A>, inUser: bool)
    requires StackSound(m) && m.stack != []
    requires s.firing == Get(m, l).firing && -1 <= s.firingIndex && !s.flags.stopOnFalse
    requires l.Progress? ==> forall f: Fn :: f in Entries(s) ==> f.User?
    ensures StackSound(WithTop(Put(m, l, s), Frame(Top(m).l, inUser)))
  {
    var n := WithTop(Put(m, l, s), Frame(Top(m).l, inUser));
    forall k: ListId ensures Get(n, k) == if k == l then s else Get(m, k) {}
    assert n.progress == Get(n, Progress) && m.progress == Get(m, Progress);
    forall i | 0 <= i < |m.stack| ensures n.stack[i].l == m.stack[i].l {}
    forall k: ListId ensures OnStack(n.stack, k) <==> OnStack(m.stack, k) {
      if OnStack(m.stack, k) {
        var i :| 0 <= i < |m.stack| && m.stack[i].l == k;
        assert n.stack[i].l == k;
      }
    }
  }

  lemma ReturnSound<A>(m: Machine<A>, wasFalse: bool)
    requires Sound(m) && Enabled(m, Return(wasFalse))
    ensures Sound(Step(m, Return(wasFalse)))
  {
    var l := Top(m).l;
    PutStack(m, l, Get(m, l), false);
    ReturnStep(m, wasFalse);
    ReturnProtocol(m, Step(m, Return(wasFalse)));
  }

  lemma ReturnStep<A>(m: Machine<A>, wasFalse: bool)
    requires StackSound(m) && Enabled(m, Return(wasFalse))
    ensures Put(m, Top(m).l, Get(m, Top(m).l)) == m && Step(m, Return(wasFalse)) == WithTop(m, Frame(Top(m).l, false))
  {
    assert Returned(Get(m, Top(m).l), wasFalse) == Get(m, Top(m).l);
  }

  lemma ReturnProtocol<A>(m: Machine<A>, n: Machine<A>)
    requires Protocol(m) && m.stack != [] && Top(m).inUser && n == m.(stack := n.stack)
    ensures Protocol(n)
  {
  }

  /** The library can always go on, and ends one firing at a time. */
  lemma NeverStuck<A>(m: Machine<A>)
    requires StackSound(m) && !InUser(m)
    ensures Enabled(m, Continue)
  {
  }

  lemma {:induction false} AdvancedKeeps<F, A>(s: State<F, A>)
    requires s.firing && -1 <= s.firingIndex
    ensures var t := Advanced(s); t.flags == s.flags && (t.firing ==> t.list == s.list) &&
                                  (forall f :: f in Entries(t) ==> f in Entries(s))
    decreases |s.queue|
  {
    if s.firingIndex + 1 >= |Entries(s)| && s.queue != [] {
      AdvancedKeeps(s.(firingIndex := -1, memory := Some(s.queue[0]), queue := s.queue[1..]));
    }
  }

  /** The end of a firing. */
  lemma PoppedStack<A>(m: Machine<A>, s: State<Fn, A>)
    requires StackSound(m) && m.stack != []
    requires !s.firing && -1 <= s.firingIndex && !s.flags.stopOnFalse
    requires Top(m).l.Progress? ==> forall f: Fn :: f in Entries(s) ==> f.User?
    ensures StackSound(Put(m, Top(m).l, s).(stack := m.stack[..|m.stack| - 1]))
  {
    var l, n := Top(m).l, Put(m, Top(m).l, s).(stack := m.stack[..|m.stack| - 1]);
    forall k: ListId ensures Get(n, k) == if k == l then s else Get(m, k) {}
    assert n.progress == Get(n, Progress) && m.progress == Get(m, Progress);
    forall k: ListId ensures Get(n, k).firing <==> OnStack(n.stack, k) {
      if k != l && Get(m, k).firing {
        var i :| 0 <= i < |m.stack| && m.stack[i].l == k;
        assert n.stack[i].l == k;
      }
    }
  }

  /** A registered callback is logged and takes over. */
  lemma UserEffect<A>(p: Machine<A>, l: ListId, reg: nat)
    requires p.stack != [] && Get(p, l).firing && 0 <= Get(p, l).firingIndex < |Entries(Get(p, l))|
    requires Entries(Get(p, l))[Get(p, l).firingIndex] == User(reg)
    ensures Called(p, l) == p.(log := p.log + [Ran(l, reg, Get(p, l).memory)],
                               stack := p.stack[|p.stack| - 1 := Frame(l, true)])
  {
  }

  lemma {:induction false} ContinueProgress<A>(m: Machine<A>)
    requires Sound(m) && Enabled(m, Continue) && Top(m).l.Progress?
    ensures Sound(Continuing(m))
  {
    assert Get(m, Progress) == m.progress;
    var t := Advanced(m.progress);
    AdvancedProgress(m, t);
    if t.firing {
      var reg := Entries(t)[t.firingIndex].reg;
      UserEffect(m.(progress := t), Progress, reg);
      ProgressCalls(m, t, reg, Called(m.(progress := t), Progress));
    } else {
      ProgressEnds(m, t);
    }
  }

  lemma AdvancedProgress<A>(m: Machine<A>, t: State<Fn, A>)
    requires StackSound(m) && m.progress.firing && -1 <= m.progress.firingIndex && t == Advanced(m.progress)
    ensures -1 <= t.firingIndex && !t.flags.stopOnFalse && forall f: Fn :: f in Entries(t) ==> f.User?
    ensures t.firing ==> 0 <= t.firingIndex < |Entries(t)| && Entries(t)[t.firingIndex].User?
  {
    assert Get(m, Progress) == m.progress;
    AdvancedKeeps(m.progress);
    assert t.firing ==> Entries(t)[t.firingIndex] in Entries(t);
  }

  lemma {:induction false} ProgressEnds<A>(m: Machine<A>, t: State<Fn, A>)
    requires Sound(m) && m.stack != [] && Top(m) == Frame(Progress, false)
    requires !t.firing && -1 <= t.firingIndex && !t.flags.stopOnFalse
    requires forall f: Fn :: f in Entries(t) ==> f.User?
    ensures Sound(m.(progress := t, stack := m.stack[..|m.stack| - 1]))
  {
    PoppedStack(m, t);
    ProgressOnly(m, m.(progress := t, stack := m.stack[..|m.stack| - 1]));
  }

  lemma {:induction false} ProgressCalls<A>(m: Machine<A>, t: State<Fn, A>, reg: nat, n: Machine<A>)
    requires Sound(m) && m.stack != [] && Top(m) == Frame(Progress, false)
    requires t.firing == m.progress.firing && -1 <= t.firingIndex && !t.flags.stopOnFalse
    requires forall f: Fn :: f in Entries(t) ==> f.User?
    requires n == WithTop(m.(progress := t, log := m.log + [Ran(Progress, reg, t.memory)]), Frame(Progress, true))
    ensures Sound(n)
  {
    PutStack(m, Progress, t, true);
    SameStack(WithTop(Put(m, Progress, t), Frame(Progress, true)), n);
    RunsExtended(m.log, Ran(Progress, reg, t.memory), Done);
    RunsExtended(m.log, Ran(Progress, reg, t.memory), Failed);
    assert RunsOf(n.log, Done) == RunsOf(m.log, Done) && RunsOf(n.log, Failed) == RunsOf(m.log, Failed);
    ProgressOnly(m, n);
  }

  /** The protocol does not look at the progress list. */
  lemma ProgressOnly<A>(m: Machine<A>, n: Machine<A>)
    requires Sound(m) && (m.settles != [] ==> m.stage == 3)
    requires n.done == m.done && n.fail == m.fail && n.fate == m.fate && n.stage == m.stage
    requires n.regs == m.regs && n.settles == m.settles
    requires RunsOf(n.log, Done) == RunsOf(m.log, Done) && RunsOf(n.log, Failed) == RunsOf(m.log, Failed)
    ensures Protocol(n)
  {
  }

  /** The next function of the first list has been reached. */
  lemma WinnerReaches<A>(m: Machine<A>, w: ListId, args: A)
    requires Sound(m) && Enabled(m, Continue) && Settled(m, w, args) && Top(m).l == w && m.stage < 3
    ensures var s, k := Get(m, w), |RunsOf(m.log, w)|;
            && Advanced(s).firing && Winner(Advanced(s), w, args, RegsOf(m.regs, w), k, m.stage + 1)
            && Continuing(m) == Called(Put(m, w, Advanced(s)), w)
            && Entries(Advanced(s))[Advanced(s).firingIndex] == Installed(w)[m.stage]
            && StackSound(Put(m, w, Advanced(s)))
  {
    var t := Advanced(Get(m, w));
    WinnerContinues(Get(m, w), w, args, RegsOf(m.regs, w), |RunsOf(m.log, w)|, m.stage);
    PutStack(m, w, t, false);
    var p := WithTop(Put(m, w, t), Frame(w, false));
    assert p.stack == m.stack;
    SameStack(p, Put(m, w, t));
  }

  /** Installed functions only change the list `l` they act on, the fate and the stage. */
  lemma InstalledStep<A>(m: Machine<A>, w: ListId, args: A, t: State<Fn, A>, n: Machine<A>)
    requires Settled(m, w, args) && m.stage < 3
    requires Winner(t, w, args, RegsOf(m.regs, w), |RunsOf(m.log, w)|, m.stage + 1)
    requires Get(n, w) == t && n.stage == m.stage + 1 && n.fate == FateOf(w)
    requires n.log == m.log && n.regs == m.regs && n.stack == m.stack
    requires Get(n, Other(w)) == if m.stage == 1 then Disabled(Get(m, Other(w))) else Get(m, Other(w))
    ensures Settled(n, w, args)
  {
  }

  /** The effect of the installed function number `m.stage`, once reached. */
  lemma InstalledEffect<A>(p: Machine<A>, w: ListId, stage: nat)
    requires p.stack != [] && Get(p, w).firing && 0 <= Get(p, w).firingIndex < |Entries(Get(p, w))| && stage < 3
    requires !w.Progress? && Entries(Get(p, w))[Get(p, w).firingIndex] == Installed(w)[stage]
    ensures var n, o := Called(p, w), Other(w);
            n == if stage == 0 then p.(fate := FateOf(w), stage := p.stage + 1)
                 else if stage == 1 then Put(p, o, Disabled(Get(p, o))).(stage := p.stage + 1)
                 else p.(progress := Locked(p.progress), stage := p.stage + 1)
  {
  }

  /** The installed functions: set the state, disable the other list, lock the progress list. */
  lemma ContinueInstalled<A>(m: Machine<A>, w: ListId, args: A)
    requires Sound(m) && Enabled(m, Continue) && Settled(m, w, args) && Top(m).l == w && m.stage < 3
    ensures StackSound(Continuing(m)) && Settled(Continuing(m), w, args)
  {
    var n, t := Continuing(m), Advanced(Get(m, w));
    var p := Put(m, w, t);
    WinnerReaches(m, w, args);
    assert Get(p, w) == t && Get(p, Other(w)) == Get(m, Other(w));
    InstalledEffect(p, w, m.stage);
    InstalledStack(p, w, m.stage, n);
    InstalledStep(m, w, args, t, n);
  }

  lemma InstalledStack<A>(p: Machine<A>, w: ListId, stage: nat, n: Machine<A>)
    requires StackSound(p) && p.stack != [] && !w.Progress? && stage < 3
    requires n == if stage == 0 then p.(fate := FateOf(w), stage := p.stage + 1)
                  else if stage == 1 then Put(p, Other(w), Disabled(Get(p, Other(w)))).(stage := p.stage + 1)
                  else p.(progress := Locked(p.progress), stage := p.stage + 1)
    ensures StackSound(n)
  {
    var o := Other(w);
    if stage == 0 {
      SameStack(p, n);
    } else if stage == 1 {
      SwapStack(p, o, Disabled(Get(p, o)), n);
    } else {
      assert Get(p, Progress) == p.progress;
      SwapStack(p, Progress, Locked(p.progress), n);
    }
  }

  lemma SwapStack<A>(m: Machine<A>, l: ListId, s: State<Fn, A>, n: Machine<A>)
    requires StackSound(m) && m.stack != []
    requires s.firing == Get(m, l).firing && -1 <= s.firingIndex && !s.flags.stopOnFalse
    requires l.Progress? ==> forall f: Fn :: f in Entries(s) ==> f.User?
    requires n == Put(m, l, s).(stage := n.stage)
    ensures StackSound(n)
  {
  }

  /** The registered callbacks, in order, with the remembered arguments. */
  lemma ContinueUsers<A>(m: Machine<A>, w: ListId, args: A)
    requires Sound(m) && Enabled(m, Continue) && Settled(m, w, args) && Top(m).l == w && m.stage == 3
    ensures StackSound(Continuing(m)) && Settled(Continuing(m), w, args)
  {
    if |RunsOf(m.log, w)| < |RegsOf(m.regs, w)| {
      ContinueUser(m, w, args);
    } else {
      ContinueDone(m, w, args);
    }
  }

  lemma ContinueUser<A>(m: Machine<A>, w: ListId, args: A)
    requires Sound(m) && Enabled(m, Continue) && Settled(m, w, args) && Top(m).l == w && m.stage == 3
    requires |RunsOf(m.log, w)| < |RegsOf(m.regs, w)|
    ensures StackSound(Continuing(m)) && Settled(Continuing(m), w, args)
  {
    var n, t := Continuing(m), Advanced(Get(m, w));
    var regs, k := RegsOf(m.regs, w), |RunsOf(m.log, w)|;
    WinnerContinues(Get(m, w), w, args, regs, k, 3);
    var e := Ran(w, regs[k], Some(args));
    assert Get(Put(m, w, t), w) == t;
    UserEffect(Put(m, w, t), w, regs[k]);
    PutStack(m, w, t, true);
    SameStack(WithTop(Put(m, w, t), Frame(w, true)), n);
    UsersStep(m, w, args, t, e, n);
  }

  lemma {:induction false} ContinueDone<A>(m: Machine<A>, w: ListId, args: A)
    requires Sound(m) && Enabled(m, Continue) && Settled(m, w, args) && Top(m).l == w && m.stage == 3
    requires |RunsOf(m.log, w)| >= |RegsOf(m.regs, w)|
    ensures StackSound(Continuing(m)) && Settled(Continuing(m), w, args)
  {
    var n, o, t := Continuing(m), Other(w), Advanced(Get(m, w));
    WinnerContinues(Get(m, w), w, args, RegsOf(m.regs, w), |RunsOf(m.log, w)|, 3);
    PoppedStack(m, t);
    assert n == Put(m, w, t).(stack := m.stack[..|m.stack| - 1]);
    assert Get(n, w) == t && Get(n, o) == Get(m, o);
  }

  lemma UsersStep<A>(m: Machine<A>, w: ListId, args: A, t: State<Fn, A>, e: Event<A>, n: Machine<A>)
    requires Settled(m, w, args) && m.stage == 3 && |RunsOf(m.log, w)| < |RegsOf(m.regs, w)|
    requires e == Ran(w, RegsOf(m.regs, w)[|RunsOf(m.log, w)|], Some(args))
    requires Winner(t, w, args, RegsOf(m.regs, w), |RunsOf(m.log, w)| + 1, 3)
    requires n == Put(m, w, t).(log := m.log + [e], stack := n.stack)
    ensures Settled(n, w, args)
  {
    var regs, runs, o := RegsOf(m.regs, w), RunsOf(m.log, w), Other(w);
    RunsExtended(m.log, e, w);
    RunsExtended(m.log, e, o);
    assert Get(n, w) == t && Get(n, o) == Get(m, o);
    assert RunsOf(n.log, w) == runs + [e] && RunsOf(n.log, o) == [];
    ExpectedExtended(w, regs, |runs|, args);
    assert |runs + [e]| == |runs| + 1;
  }

  lemma ExpectedExtended<A>(w: ListId, regs: seq<nat>, k: nat, args: A)
    requires k < |regs|
    ensures Expected(w, regs[..k], args) + [Ran(w, regs[k], Some(args))] == Expected(w, regs[..k + 1], args)
  {
  }

  /** Only the progress list and the list fired first are ever firing. */
  lemma TopOfFiring<A>(m: Machine<A>)
    requires Sound(m) && Enabled(m, Continue) && !Top(m).l.Progress?
    ensures m.settles != [] && Top(m).l == m.settles[0].l
  {
  }

  lemma ContinueSound<A>(m: Machine<A>)
    requires Sound(m) && Enabled(m, Continue)
    ensures Sound(Continuing(m))
  {
    if Top(m).l.Progress? {
      ContinueProgress(m);
    } else {
      TopOfFiring(m);
      var w, args := m.settles[0].l, m.settles[0].args;
      SettlesKept(m);
      if m.stage < 3 {
        ContinueInstalled(m, w, args);
      } else {
        ContinueUsers(m, w, args);
      }
    }
  }

  lemma SettlesKept<A>(m: Machine<A>)
    requires Enabled(m, Continue)
    ensures Continuing(m).settles == m.settles && Continuing(m).stage >= m.stage
  {
  }

  lemma {:induction false} StepSound<A>(m: Machine<A>, op: Op<A>)
    requires Sound(m) && Enabled(m, op)
    ensures Sound(Step(m, op))
  {
    match op
    case Register(l) => RegisterSound(m, l);
    case Fire(l, args) => FireSound(m, l, args);
    case Return(wasFalse) => ReturnSound(m, wasFalse);
    case Continue => ContinueSound(m);
  }

  // ----- whole runs

  ghost predicate Run<A>(ops: seq<Op<A>>)
    decreases |ops|, 0
  {
    ops == [] || (Run(ops[..|ops| - 1]) && Enabled(After(ops[..|ops| - 1]), ops[|ops| - 1]))
  }

  /** The machine after a run. */
  function After<A>(ops: seq<Op<A>>): Machine<A>
    requires Run(ops)
    decreases |ops|, 1
  {
    if ops == [] then Initial() else Step(After(ops[..|ops| - 1]), ops[|ops| - 1])
  }

  lemma {:induction false} RunSound<A>(ops: seq<Op<A>>)
    requires Run(ops)
    ensures Sound(After(ops))
  {
    if ops == [] {
      InitialSound<A>();
    } else {
      RunSound(ops[..|ops| - 1]);
      StepSound(After(ops[..|ops| - 1]), ops[|ops| - 1]);
    }
  }

  /** The lists registered on, and the calls of `resolve` and `reject`, in the order in which users made them. */
  function Registered<A>(ops: seq<Op<A>>): seq<ListId> {
    if ops == [] then []
    else
      var op := ops[|ops| - 1];
      Registered(ops[..|ops| - 1]) + if op.Register? then [op.l] else []
  }

  function Settling<A>(ops: seq<Op<A>>): seq<Settle<A>> {
    if ops == [] then []
    else
      var op := ops[|ops| - 1];
      Settling(ops[..|ops| - 1]) + if op.Fire? && op.l != Progress then [Settle(op.l, op.args)] else []
  }

  lemma StepHistory<A>(m: Machine<A>, op: Op<A>)
    requires Enabled(m, op)
    ensures Step(m, op).regs == if op.Register? then m.regs + [op.l] else m.regs
    ensures Step(m, op).settles ==
            if op.Fire? && op.l != Progress then m.settles + [Settle(op.l, op.args)] else m.settles
  {
  }

  lemma {:induction false} HistoryOf<A>(ops: seq<Op<A>>)
    requires Run(ops)
    ensures After(ops).regs == Registered(ops) && After(ops).settles == Settling(ops)
  {
    if ops != [] {
      HistoryOf(ops[..|ops| - 1]);
      StepHistory(After(ops[..|ops| - 1]), ops[|ops| - 1]);
    }
  }

  /** The first call of `resolve` or `reject` decides: until it the deferred is pending and runs nothing; from it on
      the callbacks of its list run in registration order with its arguments, each once, those of the other list
      never; and whenever no firing is in progress all registrations so far have run. */
  lemma FirstCallDecides<A>(ops: seq<Op<A>>)
    requires Run(ops)
    ensures var m, settles := After(ops), Settling(ops);
            if settles == [] then
              m.fate == Pending && RunsOf(m.log, Done) == [] && RunsOf(m.log, Failed) == []
            else
              var w, args, regs := settles[0].l, settles[0].args, RegsOf(Registered(ops), settles[0].l);
              && RunsOf(m.log, if w == Done then Failed else Done) == []
              && |RunsOf(m.log, w)| <= |regs|
              && RunsOf(m.log, w) == Expected(w, regs[..|RunsOf(m.log, w)|], args)
              && (InUser(m) ==> m.fate == if w == Done then Resolved else Rejected)
              && (m.stack == [] ==> RunsOf(m.log, w) == Expected(w, regs, args))
  {
    RunSound(ops);
    HistoryOf(ops);
    var m := After(ops);
    if m.settles != [] && m.stack == [] {
      var w := m.settles[0].l;
      assert !Get(m, w).firing;
      assert RegsOf(m.regs, w)[..|RegsOf(m.regs, w)|] == RegsOf(m.regs, w);
    }
  }

  /** The state leaves pending at most once. */
  lemma {:induction false} FateIsFinal<A>(ops: seq<Op<A>>, op: Op<A>)
    requires Run(ops + [op])
    ensures Run(ops) && (After(ops).fate != Pending ==> After(ops + [op]).fate == After(ops).fate)
  {
    assert (ops + [op])[..|ops|] == ops;
    RunSound(ops);
    FateStep(After(ops), op);
  }

  lemma FateFromHistory<A>(m: Machine<A>)
    requires Sound(m)
    ensures m.fate == if m.settles == [] || m.stage == 0 then Pending else FateOf(m.settles[0].l)
  {
  }

  lemma UserStepFate<A>(m: Machine<A>, op: Op<A>)
    requires Enabled(m, op) && !op.Continue?
    ensures Step(m, op).fate == m.fate
  {
  }

  lemma FateStep<A>(m: Machine<A>, op: Op<A>)
    requires Sound(m) && Enabled(m, op)
    ensures m.fate != Pending ==> Step(m, op).fate == m.fate
  {
    if op.Continue? {
      ContinueSound(m);
      SettlesKept(m);
      FateFromHistory(m);
      FateFromHistory(Continuing(m));
    } else {
      UserStepFate(m, op);
    }
  }
}
