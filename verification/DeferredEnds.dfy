/** jQuery.Deferred: every firing comes to its end, so a settled deferred runs all its callbacks. */
module DeferredEnds {
  import opened Options
  import opened Callbacks
  import opened Deferreds

  /** What the firing on top has still before it: queued arguments, entries after the running one, and a running one. */
  function Queue<A>(m: Machine<A>): nat {
    if m.stack == [] then 0 else |Get(m, Top(m).l).queue|
  }

  function Entry<A>(m: Machine<A>): nat {
    if m.stack == [] then 0
    else
      var s := Get(m, Top(m).l);
      if s.firingIndex < |Entries(s)| then |Entries(s)| - s.firingIndex else 0
  }

  function Running<A>(m: Machine<A>): nat {
    if m.stack != [] && Top(m).inUser then 1 else 0
  }

  /** `n` is nearer to the end. */
  predicate Nearer<A>(n: Machine<A>, m: Machine<A>) {
    || |n.stack| < |m.stack|
    || (|n.stack| == |m.stack| &&
        (|| Queue(n) < Queue(m)
         || (Queue(n) == Queue(m) && (Entry(n) < Entry(m) || (Entry(n) == Entry(m) && Running(n) < Running(m))))))
  }

  /** A list goes to its next entry, to its next arguments, or to its end. */
  lemma {:induction false} AdvancedNearer<F, A>(s: State<F, A>)
    requires s.firing && -1 <= s.firingIndex
    ensures var t := Advanced(s);
            t.firing ==> t.list == s.list &&
                         (|t.queue| < |s.queue| || (t.queue == s.queue && s.firingIndex < t.firingIndex < |Entries(s)|))
    decreases |s.queue|
  {
    if s.firingIndex + 1 >= |Entries(s)| && s.queue != [] {
      AdvancedNearer(s.(firingIndex := -1, memory := Some(s.queue[0]), queue := s.queue[1..]));
    }
  }

  /** The running callback returns, or the library goes on. */
  ghost function Onward<A>(m: Machine<A>): Machine<A>
    requires Sound(m) && m.stack != []
  {
    if InUser(m) then Step(m, Return(true))
    else
      NeverStuck(m);
      Step(m, Continue)
  }

  /** The firing on top goes on: its list advances, and it ends or stays on top. */
  ghost predicate Advances<A>(m: Machine<A>, n: Machine<A>)
    requires Enabled(m, Continue)
  {
    var l, t := Top(m).l, Advanced(Get(m, Top(m).l));
    if t.firing then |n.stack| == |m.stack| && Top(n).l == l && Get(n, l) == t else |n.stack| < |m.stack|
  }

  lemma UserAdvances<A>(m: Machine<A>, reg: nat)
    requires Sound(m) && Enabled(m, Continue) && Advanced(Get(m, Top(m).l)).firing
    requires Entries(Advanced(Get(m, Top(m).l)))[Advanced(Get(m, Top(m).l)).firingIndex] == User(reg)
    ensures Advances(m, Continuing(m))
  {
    var l, t := Top(m).l, Advanced(Get(m, Top(m).l));
    assert Get(Put(m, l, t), l) == t;
    UserEffect(Put(m, l, t), l, reg);
  }

  lemma ProgressAdvances<A>(m: Machine<A>)
    requires Sound(m) && Enabled(m, Continue) && Top(m).l.Progress?
    ensures Advances(m, Continuing(m))
  {
    assert Get(m, Progress) == m.progress;
    var t := Advanced(m.progress);
    AdvancedProgress(m, t);
    if t.firing { UserAdvances(m, Entries(t)[t.firingIndex].reg); }
  }

  lemma InstalledAdvances<A>(m: Machine<A>, w: ListId, args: A)
    requires Sound(m) && Enabled(m, Continue) && Settled(m, w, args) && Top(m).l == w && m.stage < 3
    ensures Advances(m, Continuing(m))
  {
    var t := Advanced(Get(m, w));
    WinnerReaches(m, w, args);
    assert Get(Put(m, w, t), w) == t;
    InstalledEffect(Put(m, w, t), w, m.stage);
  }

  lemma WinnerAdvances<A>(m: Machine<A>)
    requires Sound(m) && Enabled(m, Continue) && !Top(m).l.Progress?
    ensures Advances(m, Continuing(m))
  {
    TopOfFiring(m);
    var w, args := m.settles[0].l, m.settles[0].args;
    var regs, k := RegsOf(m.regs, w), |RunsOf(m.log, w)|;
    if m.stage < 3 {
      InstalledAdvances(m, w, args);
    } else {
      WinnerContinues(Get(m, w), w, args, regs, k, 3);
      if Advanced(Get(m, w)).firing { UserAdvances(m, regs[k]); }
    }
  }

  lemma GoesOn<A>(m: Machine<A>)
    requires Sound(m) && m.stack != []
    ensures var n := Onward(m); Sound(n) && Nearer(n, m) && n.regs == m.regs && n.settles == m.settles
  {
    if InUser(m) {
      StepSound(m, Return(true));
      ReturnStep(m, true);
    } else {
      NeverStuck(m);
      StepSound(m, Continue);
      StepHistory(m, Continue);
      if Top(m).l.Progress? { ProgressAdvances(m); } else { WinnerAdvances(m); }
      AdvancesNearer(m, Step(m, Continue));
    }
  }

  lemma AdvancesNearer<A>(m: Machine<A>, n: Machine<A>)
    requires Enabled(m, Continue) && Advances(m, n)
    ensures Nearer(n, m)
  {
    AdvancedNearer(Get(m, Top(m).l));
  }

  /** When the callbacks return without calling anything, the firings in progress end: what is left then. */
  ghost function Unwound<A>(m: Machine<A>): (n: Machine<A>)
    requires Sound(m)
    ensures Sound(n) && n.stack == [] && n.regs == m.regs && n.settles == m.settles
    decreases |m.stack|, Queue(m), Entry(m), Running(m)
  {
    if m.stack == [] then m
    else
      GoesOn(m);
      Unwound(Onward(m))
  }

  /** From the end of any run in which the deferred was settled, all callbacks registered on the winning list run. */
  lemma AllCallbacksRun<A>(ops: seq<Op<A>>)
    requires Deferreds.Run(ops) && Settling(ops) != []
    ensures Sound(After(ops))
    ensures var w, args := Settling(ops)[0].l, Settling(ops)[0].args;
            RunsOf(Unwound(After(ops)).log, w) == Expected(w, RegsOf(Registered(ops), w), args)
  {
    RunSound(ops);
    HistoryOf(ops);
    var n, w := Unwound(After(ops)), Settling(ops)[0].l;
    assert !Get(n, w).firing;
    assert RegsOf(n.regs, w)[..|RegsOf(n.regs, w)|] == RegsOf(n.regs, w);
  }
}
