/** jQuery.Deferred: what `notify` does once the deferred is settled. `resolve` and `reject` lock the progress list, but
    registering a progress callback may undo that. */
module DeferredProgress {
  import opened Options
  import opened Callbacks
  import opened Deferreds

  /** Did a `notify` come while the deferred was pending? */
  ghost predicate Notified<A>(ops: seq<Op<A>>)
    requires Deferreds.Run(ops)
  {
    ops != [] &&
    var rest, op := ops[..|ops| - 1], ops[|ops| - 1];
    Notified(rest) || (op.Fire? && op.l.Progress? && After(rest).settles == [])
  }

  /** Was a progress callback registered after the deferred was settled, while no progress callback was running? */
  ghost predicate Joined<A>(ops: seq<Op<A>>)
    requires Deferreds.Run(ops)
  {
    ops != [] &&
    var rest, op := ops[..|ops| - 1], ops[|ops| - 1];
    Joined(rest) || (op == Register(Progress) && After(rest).settles != [] && !OnStack(After(rest).stack, Progress))
  }

  // ----- the progress list

  /** The progress list: it remembers a `notify` if there was one before settling; when that is `over`, it is locked
      unless a callback joined a list that remembers. */
  ghost predicate ProgressSound<A>(p: State<Fn, A>, over: bool, notified: bool, joined: bool) {
    && p.flags == MEMORY && -1 <= p.firingIndex && (p.memory.Some? <==> notified)
    && (if p.firing then p.memory.Some? else p.queue == [] && p.firingIndex == -1)
    && if !over then !joined && !p.locked && p.list.Some?
       else
         && (p.list.Some? <==> notified) && (p.locked <==> !(notified && joined))
         && (p.locked ==> p.queue == []) && (!p.locked ==> Entries(p) != [])
  }

  lemma InitialProgress<A>()
    ensures ProgressSound(Initial<A>().progress, false, false, false)
  {
  }

  lemma RegisterProgress<A>(p: State<Fn, A>, reg: nat, over: bool, notified: bool, joined: bool)
    requires ProgressSound(p, over, notified, joined)
    ensures var t := Added(p, [User(reg)]);
            && (AddFires(p) ==> t.queue != [])
            && ProgressSound(if AddFires(p) then Started(t) else t, over, notified, joined || (over && !p.firing))
  {
    AddedOne(p, User(reg));
  }

  lemma NotifyProgress<A>(p: State<Fn, A>, args: A, over: bool, notified: bool, joined: bool)
    requires ProgressSound(p, over, notified, joined)
    ensures var t := Queued(p, args);
            ProgressSound(if FireWithFires(p) then Started(t) else t, over, notified || !over, joined)
  {
  }

  lemma {:induction false} AdvanceProgress<A>(p: State<Fn, A>, over: bool, notified: bool, joined: bool)
    requires ProgressSound(p, over, notified, joined) && p.firing
    ensures ProgressSound(Advanced(p), over, notified, joined)
    decreases |p.queue|
  {
    if p.firingIndex + 1 >= |Entries(p)| && p.queue != [] {
      AdvanceProgress(p.(firingIndex := -1, memory := Some(p.queue[0]), queue := p.queue[1..]), over, notified, joined);
    }
  }

  lemma LockProgress<A>(p: State<Fn, A>, notified: bool)
    requires ProgressSound(p, false, notified, false)
    ensures ProgressSound(Locked(p), true, notified, false)
  {
  }

  // ----- over the run

  lemma {:induction false} RunProgress<A>(ops: seq<Op<A>>)
    requires Deferreds.Run(ops)
    ensures ProgressSound(After(ops).progress, After(ops).stage == 3, Notified(ops), Joined(ops))
  {
    if ops == [] {
      InitialProgress<A>();
    } else {
      var rest, op := ops[..|ops| - 1], ops[|ops| - 1];
      RunSound(rest);
      RunProgress(rest);
      StepProgress(After(rest), op, Notified(rest), Joined(rest));
    }
  }

  lemma StepProgress<A>(m: Machine<A>, op: Op<A>, notified: bool, joined: bool)
    requires Sound(m) && Enabled(m, op) && ProgressSound(m.progress, m.stage == 3, notified, joined)
    ensures ProgressSound(Step(m, op).progress, Step(m, op).stage == 3,
                          notified || (op.Fire? && op.l.Progress? && m.settles == []),
                          joined || (op == Register(Progress) && m.settles != [] && !OnStack(m.stack, Progress)))
  {
    match op
    case Register(l) => RegisterStep(m, l, notified, joined);
    case Fire(l, args) => FireStep(m, l, args, notified, joined);
    case Return(wasFalse) => ReturnStep(m, wasFalse);
    case Continue => ContinueProgressSound(m, notified, joined);
  }

  lemma RegisterStep<A>(m: Machine<A>, l: ListId, notified: bool, joined: bool)
    requires Sound(m) && InUser(m) && ProgressSound(m.progress, m.stage == 3, notified, joined)
    ensures ProgressSound(Registering(m, l).progress, Registering(m, l).stage == 3, notified,
                          joined || (l.Progress? && m.settles != [] && !OnStack(m.stack, Progress)))
  {
    SettledInUser(m);
    RegisterFrame(m, l);
    assert Get(Registering(m, l), Progress) == Registering(m, l).progress;
    if l.Progress? { RegisterProgress(m.progress, |m.regs|, m.stage == 3, notified, joined); }
  }

  lemma FireStep<A>(m: Machine<A>, l: ListId, args: A, notified: bool, joined: bool)
    requires Sound(m) && InUser(m) && ProgressSound(m.progress, m.stage == 3, notified, joined)
    ensures ProgressSound(Firing(m, l, args).progress, Firing(m, l, args).stage == 3,
                          notified || (l.Progress? && m.settles == []), joined)
  {
    SettledInUser(m);
    FireFrame(m, l, args);
    assert Get(Firing(m, l, args), Progress) == Firing(m, l, args).progress;
    if l.Progress? { NotifyProgress(m.progress, args, m.stage == 3, notified, joined); }
  }

  /** In user code, a deferred that has been settled has locked its progress list. */
  lemma SettledInUser<A>(m: Machine<A>)
    requires Sound(m) && InUser(m)
    ensures m.settles != [] <==> m.stage == 3
    ensures Get(m, Progress) == m.progress && (m.progress.firing <==> OnStack(m.stack, Progress))
  {
    assert Get(m, Progress) == m.progress;
  }

  lemma ContinueProgressSound<A>(m: Machine<A>, notified: bool, joined: bool)
    requires Sound(m) && Enabled(m, Continue) && ProgressSound(m.progress, m.stage == 3, notified, joined)
    ensures ProgressSound(Continuing(m).progress, Continuing(m).stage == 3, notified, joined)
  {
    if Top(m).l.Progress? {
      ContinueOnProgress(m);
      AdvanceProgress(m.progress, m.stage == 3, notified, joined);
    } else if m.stage < 3 {
      ContinueOnInstalled(m);
      if m.stage == 2 { LockProgress(m.progress, notified); }
    } else {
      ContinueOnUsers(m);
    }
  }

  lemma ContinueOnProgress<A>(m: Machine<A>)
    requires Sound(m) && Enabled(m, Continue) && Top(m).l.Progress?
    ensures m.progress.firing && -1 <= m.progress.firingIndex
    ensures Continuing(m).progress == Advanced(m.progress) && Continuing(m).stage == m.stage
  {
    assert Get(m, Progress) == m.progress;
    var t := Advanced(m.progress);
    AdvancedProgress(m, t);
    if t.firing { UserEffect(m.(progress := t), Progress, Entries(t)[t.firingIndex].reg); }
  }

  lemma ContinueOnInstalled<A>(m: Machine<A>)
    requires Sound(m) && Enabled(m, Continue) && !Top(m).l.Progress? && m.stage < 3
    ensures Continuing(m).progress == if m.stage == 2 then Locked(m.progress) else m.progress
    ensures Continuing(m).stage == m.stage + 1
  {
    TopOfFiring(m);
    var w, args := m.settles[0].l, m.settles[0].args;
    WinnerReaches(m, w, args);
    InstalledEffect(Put(m, w, Advanced(Get(m, w))), w, m.stage);
  }

  lemma ContinueOnUsers<A>(m: Machine<A>)
    requires Sound(m) && Enabled(m, Continue) && !Top(m).l.Progress? && m.stage == 3
    ensures Continuing(m).progress == m.progress && Continuing(m).stage == m.stage
  {
    TopOfFiring(m);
    var w, args := m.settles[0].l, m.settles[0].args;
    var regs, k := RegsOf(m.regs, w), |RunsOf(m.log, w)|;
    var t := Advanced(Get(m, w));
    WinnerContinues(Get(m, w), w, args, regs, k, 3);
    if t.firing { UserEffect(Put(m, w, t), w, regs[k]); }
  }

  // ----- `notify` after settling

  /** `notify` hands its arguments to the progress callbacks: in their turn if one is running, or at once to the
      first. */
  ghost predicate Delivers<A>(m: Machine<A>, args: A)
    requires InUser(m)
  {
    var n := Firing(m, Progress, args);
    if OnStack(m.stack, Progress) then n == m.(progress := n.progress) && n.progress.queue == m.progress.queue + [args]
    else
      && Enabled(n, Continue) && Entries(m.progress) != [] && Entries(m.progress)[0].User?
      && Continuing(n).log == m.log + [Ran(Progress, Entries(m.progress)[0].reg, Some(args))]
  }

  lemma NotifyLocked<A>(m: Machine<A>, args: A)
    requires m.progress.locked
    ensures Firing(m, Progress, args) == m
  {
  }

  lemma NotifyUnlocked<A>(m: Machine<A>, args: A)
    requires Sound(m) && InUser(m) && !m.progress.locked && Entries(m.progress) != []
    requires !m.progress.firing ==> m.progress.queue == [] && m.progress.firingIndex == -1
    ensures Delivers(m, args) && Firing(m, Progress, args) != m
  {
    assert Get(m, Progress) == m.progress;
    if m.progress.firing {
      NotifyQueued(m, args);
    } else {
      NotifyIdle(m, args);
    }
  }

  lemma NotifyQueued<A>(m: Machine<A>, args: A)
    requires !m.progress.locked && m.progress.firing
    ensures var n := Firing(m, Progress, args);
            n == m.(progress := n.progress) && n.progress.queue == m.progress.queue + [args]
  {
  }

  lemma NotifyIdle<A>(m: Machine<A>, args: A)
    requires !m.progress.locked && !m.progress.firing && m.progress.queue == [] && m.progress.firingIndex == -1
    requires Entries(m.progress) != [] && Entries(m.progress)[0].User?
    ensures var n := Firing(m, Progress, args);
            && Enabled(n, Continue) && n.progress.firing
            && Continuing(n).log == m.log + [Ran(Progress, Entries(m.progress)[0].reg, Some(args))]
  {
    var n, t := Firing(m, Progress, args), Started(Queued(m.progress, args));
    assert n == m.(progress := t, stack := m.stack + [Frame(Progress, false)]);
    assert Advanced(t) == t.(firingIndex := 0);
    UserEffect(n.(progress := Advanced(t)), Progress, Entries(m.progress)[0].reg);
  }

  lemma NotifyEither<A>(m: Machine<A>, args: A, notified: bool, joined: bool)
    requires Sound(m) && InUser(m) && ProgressSound(m.progress, true, notified, joined)
    ensures Firing(m, Progress, args) == m <==> !(notified && joined)
    ensures notified && joined ==> Delivers(m, args)
  {
    if m.progress.locked { NotifyLocked(m, args); } else { NotifyUnlocked(m, args); }
  }

  /** Once the deferred is settled, `notify` does nothing at all, unless some `notify` came before and a progress
      callback has joined since: then its arguments are handed to the progress callbacks. */
  lemma NotifyExact<A>(ops: seq<Op<A>>, args: A)
    requires Deferreds.Run(ops) && After(ops).settles != [] && InUser(After(ops))
    ensures Step(After(ops), Fire(Progress, args)) == After(ops) <==> !(Notified(ops) && Joined(ops))
    ensures Notified(ops) && Joined(ops) ==> Delivers(After(ops), args)
  {
    RunSound(ops);
    RunProgress(ops);
    SettledInUser(After(ops));
    NotifyEither(After(ops), args, Notified(ops), Joined(ops));
  }

  // ----- a late notification

  ghost predicate Leads<A>(ops: seq<Op<A>>, m: Machine<A>) {
    Deferreds.Run(ops) && After(ops) == m
  }

  lemma Extend<A>(ops: seq<Op<A>>, m: Machine<A>, op: Op<A>)
    requires Leads(ops, m) && Enabled(m, op)
    ensures Leads(ops + [op], Step(m, op))
  {
    assert (ops + [op])[..|ops|] == ops;
  }

  lemma ExtendTwice<A>(ops: seq<Op<A>>, m: Machine<A>, first: Op<A>, second: Op<A>)
    requires Leads(ops, m) && Enabled(m, first) && Enabled(Step(m, first), second)
    ensures Leads(ops + [first, second], Step(Step(m, first), second))
  {
    Extend(ops, m, first);
    Extend(ops + [first], Step(m, first), second);
    assert ops + [first] + [second] == ops + [first, second];
  }

  /** The progress list after `notify(1)` has run nothing, and been locked. */
  const LOCKED_WITH_ONE: State<Fn, int> := State(MEMORY, Some([]), [], -1, Some(1), false, true, true)

  lemma NotifyFirst()
    ensures var m := Initial<int>(); var n := Firing(m, Progress, 1);
            Enabled(n, Continue) && Continuing(n) == m.(progress := LOCKED_WITH_ONE.(locked := false))
  {
  }

  /** `resolve(2)` after `k` of the installed functions. */
  function Resolving(k: nat): Machine<int>
    requires k <= 3
  {
    var m := Initial<int>();
    m.(done := Started(Queued(m.done, 2)).(firingIndex := k - 1),
       fail := if k < 2 then m.fail else Disabled(m.fail),
       progress := LOCKED_WITH_ONE.(locked := k == 3),
       fate := if k < 1 then Pending else Resolved,
       stage := k, stack := [Frame(Done, false)], settles := [Settle(Done, 2)])
  }

  lemma ResolvingStep(k: nat)
    requires k < 3
    ensures Enabled(Resolving(k), Continue) && Continuing(Resolving(k)) == Resolving(k + 1)
  {
    var m := Resolving(k);
    assert Advanced(m.done) == m.done.(firingIndex := k);
    InstalledEffect(Put(m, Done, Advanced(m.done)), Done, k);
  }

  lemma ResolvingEnds()
    ensures Enabled(Resolving(3), Continue)
    ensures Continuing(Resolving(3)) == Resolving(3).(done := Continuing(Resolving(3)).done, stack := [])
  {
    assert !Advanced(Resolving(3).done).firing;
  }

  lemma ThenResolve()
    ensures Firing(Initial<int>().(progress := LOCKED_WITH_ONE.(locked := false)), Done, 2) == Resolving(0)
  {
  }

  /** The progress list, with one callback, is firing with `a`. */
  function Playing(m: Machine<int>, a: int, at: int, inUser: bool): Machine<int> {
    m.(regs := [Progress], progress := State(MEMORY, Some([User(0)]), [], at, Some(a), true, true, false),
       stack := [Frame(Progress, inUser)])
  }

  function Played(m: Machine<int>, a: int): Machine<int> {
    m.(regs := [Progress], progress := State(MEMORY, Some([User(0)]), [], -1, Some(a), false, true, false), stack := [])
  }

  lemma JoinsLocked(m: Machine<int>)
    requires m.stack == [] && m.regs == [] && m.progress == LOCKED_WITH_ONE
    ensures Registering(m, Progress) == Playing(m, 1, -1, false)
  {
    AddedOne(m.progress, User(0));
    assert [] + [User(0)] == [User(0)] && [] + [1] == [1];
    assert Added(m.progress, [User(0)]) == State(MEMORY, Some([User(0)]), [1], -1, Some(1), false, true, true);
  }

  lemma Plays(m: Machine<int>, a: int)
    ensures var n := Playing(m, a, -1, false);
            Enabled(n, Continue) && Continuing(n) == Playing(m.(log := m.log + [Ran(Progress, 0, Some(a))]), a, 0, true)
  {
    var n := Playing(m, a, -1, false);
    var t := n.progress.(firingIndex := 0);
    assert Advanced(n.progress) == t;
    UserEffect(n.(progress := t), Progress, 0);
  }

  lemma StopsPlaying(m: Machine<int>, a: int)
    ensures Enabled(Playing(m, a, 0, true), Return(true))
    ensures Step(Playing(m, a, 0, true), Return(true)) == Playing(m, a, 0, false)
    ensures Enabled(Playing(m, a, 0, false), Continue)
    ensures Continuing(Playing(m, a, 0, false)) == Played(m, a)
  {
    assert Advanced(Playing(m, a, 0, false).progress) == Played(m, a).progress;
  }

  lemma NotifiesAgain(m: Machine<int>, a: int, b: int)
    ensures Firing(Played(m, a), Progress, b) == Playing(m, b, -1, false)
  {
  }

  lemma NotifiedRun()
    ensures Leads([Fire(Progress, 1), Continue, Fire(Done, 2)], Resolving(0))
  {
    var notified := Initial<int>().(progress := LOCKED_WITH_ONE.(locked := false));
    NotifyFirst();
    assert Leads([], Initial<int>());
    ExtendTwice([], Initial<int>(), Fire(Progress, 1), Continue);
    assert [] + [Fire(Progress, 1), Continue] == [Fire(Progress, 1), Continue];
    ThenResolve();
    Extend([Fire(Progress, 1), Continue], notified, Fire(Done, 2));
    assert [Fire(Progress, 1), Continue] + [Fire(Done, 2)] == [Fire(Progress, 1), Continue, Fire(Done, 2)];
  }

  lemma ResolvingTwice(ops: seq<Op<int>>, k: nat)
    requires k < 2 && Leads(ops, Resolving(k))
    ensures Leads(ops + [Continue, Continue], Resolving(k + 2))
  {
    ResolvingStep(k);
    ResolvingStep(k + 1);
    ExtendTwice(ops, Resolving(k), Continue, Continue);
  }

  lemma ResolvingLast(ops: seq<Op<int>>)
    requires Leads(ops, Resolving(2)) && Enabled(Resolving(3), Continue)
    ensures Leads(ops + [Continue, Continue], Continuing(Resolving(3)))
  {
    ResolvingStep(2);
    ExtendTwice(ops, Resolving(2), Continue, Continue);
  }

  /** A deferred is notified with 1 and resolved with 2. */
  lemma ResolvedRun()
    ensures Enabled(Resolving(3), Continue)
    ensures Leads([Fire(Progress, 1), Continue, Fire(Done, 2)] + [Continue, Continue] + [Continue, Continue],
                  Continuing(Resolving(3)))
  {
    var ops: seq<Op<int>> := [Fire(Progress, 1), Continue, Fire(Done, 2)];
    NotifiedRun();
    ResolvingTwice(ops, 0);
    ResolvingEnds();
    ResolvingLast(ops + [Continue, Continue]);
  }

  /** A progress callback registered runs with the 1 remembered. */
  lemma JoinedRun(ops: seq<Op<int>>, m: Machine<int>)
    requires Leads(ops, m) && m.stack == [] && m.regs == [] && m.progress == LOCKED_WITH_ONE
    ensures Leads(ops + [Register(Progress), Continue],
                  Playing(m.(log := m.log + [Ran(Progress, 0, Some(1))]), 1, 0, true))
  {
    JoinsLocked(m);
    Plays(m, 1);
    ExtendTwice(ops, m, Register(Progress), Continue);
  }

  /** It returns, and runs with the 3 of another `notify`. */
  lemma NotifiedAgainRun(ops: seq<Op<int>>, n: Machine<int>)
    requires Leads(ops, Playing(n, 1, 0, true))
    ensures Leads(ops + [Return(true), Continue] + [Fire(Progress, 3), Continue],
                  Playing(n.(log := n.log + [Ran(Progress, 0, Some(3))]), 3, 0, true))
  {
    StopsPlaying(n, 1);
    ExtendTwice(ops, Playing(n, 1, 0, true), Return(true), Continue);
    NotifiesAgain(n, 1, 3);
    Plays(n, 3);
    ExtendTwice(ops + [Return(true), Continue], Played(n, 1), Fire(Progress, 3), Continue);
  }

  /** A deferred is notified with 1 and resolved with 2; a progress callback registered then runs with the 1, and with
      the 3 of a later `notify`. */
  lemma NotifiedLate() returns (ops: seq<Op<int>>)
    ensures ops == [Fire(Progress, 1), Continue, Fire(Done, 2)] + [Continue, Continue] + [Continue, Continue] +
                   [Register(Progress), Continue] + [Return(true), Continue] + [Fire(Progress, 3), Continue]
    ensures Deferreds.Run(ops) && After(ops).log == [Ran(Progress, 0, Some(1)), Ran(Progress, 0, Some(3))]
  {
    ops := [Fire(Progress, 1), Continue, Fire(Done, 2)] + [Continue, Continue] + [Continue, Continue];
    ResolvedRun();
    ResolvingEnds();
    var m := Continuing(Resolving(3));
    JoinedRun(ops, m);
    ops := ops + [Register(Progress), Continue];
    NotifiedAgainRun(ops, m.(log := m.log + [Ran(Progress, 0, Some(1))]));
    ops := ops + [Return(true), Continue] + [Fire(Progress, 3), Continue];
  }
}
