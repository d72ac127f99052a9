/** jQuery.Deferred as an object: a state variable and three callback lists. Each of its steps does to the lists what
    the step of the machine of `Deferreds` says, so what is proved of the runs of the machine holds of the object. */
module DeferredObjects {
  import opened Options
  import opened Callbacks
  import opened Deferreds

  /** `stack` is the call stack of the firings in progress, `regs` the registrations so far; the ghost fields are the
      rest of the history. */
  class Deferred<A> {
    const done: CallbackList<Fn, A>
    const fail: CallbackList<Fn, A>
    const progress: CallbackList<Fn, A>
    var fate: Fate
    var stack: seq<Frame>
    var regs: seq<ListId>
    ghost var log: seq<Event<A>>
    ghost var settles: seq<Settle<A>>
    ghost var stage: nat

    ghost predicate Apart() {
      done != fail && done != progress && fail != progress
    }

    ghost function Now(): Machine<A>
      reads this, done, fail, progress
    {
      Machine(done.Now(), fail.Now(), progress.Now(), fate, stack, regs, log, settles, stage)
    }

    function ListOf(l: ListId): CallbackList<Fn, A> {
      match l
      case Done => done
      case Failed => fail
      case Progress => progress
    }

    /** `Deferred()`: the lists, with the functions that keep the state and the other lists in step. */
    constructor ()
      ensures Apart() && fresh(done) && fresh(fail) && fresh(progress) && Now() == Initial()
    {
      done := new CallbackList(ONCE_MEMORY);
      fail := new CallbackList(ONCE_MEMORY);
      progress := new CallbackList(MEMORY);
      fate, stack, regs, log, settles, stage := Pending, [], [], [], [], 0;
      new;
      Install(Done);
      Install(Failed);
    }

    /** The functions that a fresh `done` or `fail` list runs first. */
    method Install(l: ListId)
      requires Apart() && Get(Now(), l) == Fresh(ONCE_MEMORY)
      modifies done, fail, progress
      ensures Now() == Put(old(Now()), l, Fresh(ONCE_MEMORY).(list := Some(Installed(l))))
    {
      InstalledAdded<A>(l);
      var fire := ListOf(l).Add(Installed(l));
    }

    /** `done`, `fail` and `progress` */
    method Register(l: ListId)
      requires Apart() && InUser(Now())
      modifies this, done, fail, progress
      ensures Now() == Registering(old(Now()), l)
    {
      ghost var m := Now();
      RegisterFrame(m, l);
      var fire := ListOf(l).Add([User(|regs|)]);
      regs := regs + [l];
      if fire {
        ListOf(l).Start();
        stack := stack + [Frame(l, false)];
      }
      assert Now() == Registering(m, l);
    }

    /** `resolveWith`, `rejectWith` and `notifyWith` */
    method Fire(l: ListId, args: A)
      requires Apart() && InUser(Now())
      modifies this, done, fail, progress
      ensures Now() == Firing(old(Now()), l, args)
    {
      ghost var m := Now();
      var fire := ListOf(l).FireWith(args);
      if !l.Progress? { settles := settles + [Settle(l, args)]; }
      if fire {
        ListOf(l).Start();
        stack := stack + [Frame(l, false)];
      }
      assert Now() == Firing(m, l, args);
    }

    /** The running callback returns. */
    method Return(wasFalse: bool)
      requires Apart() && Enabled(Now(), Op.Return(wasFalse))
      modifies this, done, fail, progress
      ensures Now() == Step(old(Now()), Op.Return(wasFalse))
    {
      ghost var m := Now();
      var l := stack[|stack| - 1].l;
      ListOf(l).Return(wasFalse);
      assert Now() == Put(m, l, Returned(Get(m, l), wasFalse));
      stack := stack[|stack| - 1 := Frame(l, false)];
      assert Now() == Step(m, Op.Return(wasFalse));
    }

    /** The list on top of the call stack goes on to its next function, or ends. */
    method Proceed()
      requires Apart() && Enabled(Now(), Continue)
      modifies this, done, fail, progress
      ensures Now() == Continuing(old(Now()))
    {
      ghost var m := Now();
      var l := stack[|stack| - 1].l;
      var next := ListOf(l).Advance();
      assert Now() == Put(m, l, Advanced(Get(m, l)));
      match next
      case Ended => stack := stack[..|stack| - 1];
      case Run(f, args) => Perform(l, f, args);
    }

    /** The function that list `l` has come to: the three installed ones, or a callback, which takes over. */
    method Perform(l: ListId, f: Fn, args: Option<A>)
      requires Apart() && stack != [] && Get(Now(), l).firing
      requires 0 <= Get(Now(), l).firingIndex < |Entries(Get(Now(), l))|
      requires f == Entries(Get(Now(), l))[Get(Now(), l).firingIndex] && args == Get(Now(), l).memory
      modifies this, done, fail, progress
      ensures Now() == Called(old(Now()), l)
    {
      match f
      case SetState(newFate) =>
        fate, stage := newFate, stage + 1;
      case DisableList(o) =>
        DisableOther(o);
      case LockList(o) =>
        LockOther(o);
      case User(reg) =>
        log := log + [Ran(l, reg, args)];
        stack := stack[|stack| - 1 := Frame(l, true)];
    }

    method DisableOther(o: ListId)
      requires Apart()
      modifies this, done, fail, progress
      ensures Now() == Put(old(Now()), o, Disabled(Get(old(Now()), o))).(stage := old(Now()).stage + 1)
    {
      ListOf(o).Disable();
      stage := stage + 1;
    }

    method LockOther(o: ListId)
      requires Apart()
      modifies this, done, fail, progress
      ensures Now() == Put(old(Now()), o, Locked(Get(old(Now()), o))).(stage := old(Now()).stage + 1)
    {
      ListOf(o).Lock();
      stage := stage + 1;
    }
  }

  /** What a fresh list holds once the functions are installed. */
  lemma InstalledAdded<A>(l: ListId)
    ensures Added(Fresh<Fn, A>(ONCE_MEMORY), Installed(l)) == Fresh(ONCE_MEMORY).(list := Some(Installed(l)))
  {
    PushedMeaning<Fn>([], false, Installed(l));
    assert [] + Installed(l) == Installed(l);
  }
}
