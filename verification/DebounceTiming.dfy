/** When a debounced function runs: the runs of `Debounce` measured against the calls and the clock of the history. */
module DebounceTiming {
  import opened Options
  import opened Debounce

  // ----- the history

  function Clock<A>(start: nat, ops: seq<Op<A>>): nat {
    if ops == [] then start
    else if ops[|ops| - 1].Tick? then ops[|ops| - 1].now
    else Clock(start, ops[..|ops| - 1])
  }

  /** The calls made, with their times. */
  function Made<A>(start: nat, ops: seq<Op<A>>): seq<Call<A>> {
    if ops == [] then []
    else
      var rest, op := ops[..|ops| - 1], ops[|ops| - 1];
      if op.Invocate? then Made(start, rest) + [Call(Clock(start, rest), op.args)] else Made(start, rest)
  }

  lemma CallHistory<A>(c: Config, s: State<A>, args: A)
    ensures Called(c, s, args).now == s.now && Called(c, s, args).calls == s.calls + [Call(s.now, args)]
  {
    var n := Noted(c, s, args);
    AtMaxWaitParts(c, n);
    var m := AtMaxWait(c, n);
    assert AtWait(c, m, MaxWaitOver(c, n)).calls == m.calls && AtWait(c, m, MaxWaitOver(c, n)).now == m.now;
  }

  lemma ExpireHistory<A>(c: Config, s: State<A>, id: nat)
    requires Enabled(s, Expire(id))
    ensures Step(c, s, Expire(id)).now == s.now && Step(c, s, Expire(id)).calls == s.calls
  {
  }

  lemma StepHistory<A>(c: Config, s: State<A>, op: Op<A>)
    requires Enabled(s, op)
    ensures Step(c, s, op).now == if op.Tick? then op.now else s.now
    ensures Step(c, s, op).calls == if op.Invocate? then s.calls + [Call(s.now, op.args)] else s.calls
  {
    match op
    case Invocate(args) => CallHistory(c, s, args);
    case Tick(t) =>
    case Expire(id) => ExpireHistory(c, s, id);
  }

  /** The clock and the calls in the state of the machine are those of the history. */
  lemma {:induction false} HistoryOf<A>(c: Config, start: nat, ops: seq<Op<A>>)
    requires Run(c, start, ops)
    ensures After(c, start, ops).now == Clock(start, ops) && After(c, start, ops).calls == Made(start, ops)
  {
    if ops != [] {
      HistoryOf(c, start, ops[..|ops| - 1]);
      StepHistory(c, After(c, start, ops[..|ops| - 1]), ops[|ops| - 1]);
    }
  }

  /** The number of the latest call that has been run, and when. */
  function LastNth<A>(invoked: seq<Invocation<A>>): nat {
    if invoked == [] then 0 else invoked[|invoked| - 1].nth
  }

  function LastTime<A>(invoked: seq<Invocation<A>>): nat {
    if invoked == [] then 0 else invoked[|invoked| - 1].time
  }

  // ----- why a run may happen

  /** The caller has been silent for `wait`. */
  predicate Quiet<A>(c: Config, calls: seq<Call<A>>, v: Invocation<A>) {
    0 < v.nth <= |calls| && calls[v.nth - 1].time + c.wait <= v.time
  }

  predicate AtCall<A>(calls: seq<Call<A>>, v: Invocation<A>) {
    0 < v.nth <= |calls| && calls[v.nth - 1].time == v.time
  }

  /** The run is that of a call that broke a silence of `wait`, or was the first. */
  predicate Leads<A>(c: Config, calls: seq<Call<A>>, v: Invocation<A>) {
    c.leading && AtCall(calls, v) && (v.nth > 1 ==> calls[v.nth - 2].time + c.wait <= v.time)
  }

  /** `maxWait` is over since the run before, or, without `leading`, since some call that has not been run. */
  ghost predicate Overdue<A>(c: Config, calls: seq<Call<A>>, before: seq<Invocation<A>>, v: Invocation<A>)
    requires c.maxWait.Some?
  {
    if c.leading then LastTime(before) + c.maxWait.value <= v.time
    else exists k :: LastNth(before) <= k < |calls| && k < v.nth && calls[k].time + c.maxWait.value <= v.time
  }

  ghost predicate Justified<A>(c: Config, calls: seq<Call<A>>, before: seq<Invocation<A>>, v: Invocation<A>) {
    && (Quiet(c, calls, v) || if c.maxWait.None? then Leads(c, calls, v) else Overdue(c, calls, before, v))
    && (!c.trailing ==> AtCall(calls, v))
  }

  ghost predicate AllJustified<A>(c: Config, calls: seq<Call<A>>, invoked: seq<Invocation<A>>) {
    forall i :: 0 <= i < |invoked| ==> Justified(c, calls, invoked[..i], invoked[i])
  }

  // ----- the invariant

  /** The pending timers: the `wait` timer comes no later than `wait` after the latest call. */
  ghost predicate TimersDue<A>(c: Config, s: State<A>) {
    && (s.timeoutId.Some? ==> s.timeoutId.value in s.timers && s.timers[s.timeoutId.value].due <= s.stamp + c.wait)
    && (s.maxTimeoutId.Some? ==>
          && c.maxWait.Some? && s.maxTimeoutId.value in s.timers
          && s.timers[s.maxTimeoutId.value].due == s.lastCalled + c.maxWait.value && s.lastCalled <= s.stamp)
    && (s.trailingCall ==> c.trailing)
    && (s.calls != [] ==> s.stamp == s.calls[|s.calls| - 1].time)
  }

  /** Without `maxWait`, no timer is pending only when the caller is silent. */
  ghost predicate SilentWhenIdle<A>(c: Config, s: State<A>) {
    c.maxWait.None? && s.timeoutId.None? && s.calls != [] ==> s.stamp + c.wait <= s.now
  }

  /** What `lastCalled` stands for. */
  ghost predicate LastCalledFits<A>(c: Config, s: State<A>) {
    c.maxWait.Some? ==>
      if c.leading then s.lastCalled == LastTime(s.invoked)
      else s.maxTimeoutId.Some? ==> exists k :: LastNth(s.invoked) <= k < |s.calls| && s.calls[k].time == s.lastCalled
  }

  /** In a lossless configuration with `maxWait`, its timer is set by the first call that has not been run. */
  ghost predicate MaxPending<A>(c: Config, s: State<A>) {
    c.trailing && Lossless(c) && c.maxWait.Some? && LastNth(s.invoked) < |s.calls| ==>
      && s.maxTimeoutId.Some?
      && (if c.leading then s.lastCalled <= s.calls[LastNth(s.invoked)].time
          else s.lastCalled == s.calls[LastNth(s.invoked)].time)
  }

  ghost predicate Timely<A>(c: Config, s: State<A>) {
    && TimersDue(c, s) && SilentWhenIdle(c, s) && LastCalledFits(c, s) && MaxPending(c, s)
    && AllJustified(c, s.calls, s.invoked)
  }

  lemma JustifiedLater<A>(c: Config, calls: seq<Call<A>>, invoked: seq<Invocation<A>>, call: Call<A>)
    requires AllJustified(c, calls, invoked)
    ensures AllJustified(c, calls + [call], invoked)
  {
    forall i | 0 <= i < |invoked| ensures Justified(c, calls + [call], invoked[..i], invoked[i]) {
      assert Justified(c, calls, invoked[..i], invoked[i]);
      if c.maxWait.Some? && !c.leading && Overdue(c, calls, invoked[..i], invoked[i]) {
        var k :| LastNth(invoked[..i]) <= k < |calls| && k < invoked[i].nth
                 && calls[k].time + c.maxWait.value <= invoked[i].time;
        assert (calls + [call])[k] == calls[k];
      }
    }
  }

  lemma JustifiedMore<A>(c: Config, calls: seq<Call<A>>, invoked: seq<Invocation<A>>, v: Invocation<A>)
    requires AllJustified(c, calls, invoked) && Justified(c, calls, invoked, v)
    ensures AllJustified(c, calls, invoked + [v])
  {
    forall i | 0 <= i <= |invoked| ensures Justified(c, calls, (invoked + [v])[..i], (invoked + [v])[i]) {
      assert (invoked + [v])[..i] == invoked[..i];
      assert invoked[..|invoked|] == invoked;
    }
  }

  // ----- a call keeps it

  /** What is known between the parts of a call. */
  ghost predicate MidTimely<A>(c: Config, s: State<A>) {
    && TimersDue(c, s) && LastCalledFits(c, s) && MaxPending(c, s) && AllJustified(c, s.calls, s.invoked)
    && s.calls != [] && s.stamp == s.now
    && (c.maxWait.None? && s.timeoutId.None? && |s.calls| > 1 ==> s.calls[|s.calls| - 2].time + c.wait <= s.now)
  }

  lemma OverdueAtCall<A>(c: Config, s: State<A>, args: A)
    requires Valid(c) && Sound(c, s) && Timely(c, s) && MaxWaitOver(c, Noted(c, s, args))
    ensures var n := Noted(c, s, args); Overdue(c, n.calls, n.invoked, Invocation(n.now, n.args, |n.calls|))
  {
    var n := Noted(c, s, args);
    if !c.leading {
      if s.maxTimeoutId.None? {
        assert n.calls[|s.calls|].time == s.now;
      } else {
        var k :| LastNth(s.invoked) <= k < |s.calls| && s.calls[k].time == s.lastCalled;
        assert n.calls[k] == s.calls[k];
      }
    }
  }

  lemma MidJustified<A>(c: Config, s: State<A>, args: A)
    requires Valid(c) && Sound(c, s) && Timely(c, s)
    ensures var m := AtMaxWait(c, Noted(c, s, args)); AllJustified(c, m.calls, m.invoked)
  {
    var n := Noted(c, s, args);
    JustifiedLater(c, s.calls, s.invoked, Call(s.now, args));
    AtMaxWaitParts(c, n);
    if MaxWaitOver(c, n) {
      OverdueAtCall(c, s, args);
      JustifiedMore(c, n.calls, n.invoked, Invocation(n.now, n.args, |n.calls|));
    }
  }

  lemma MidTimersDue<A>(c: Config, s: State<A>, args: A)
    requires Valid(c) && Sound(c, s) && Timely(c, s)
    ensures TimersDue(c, AtMaxWait(c, Noted(c, s, args)))
  {
    var n := Noted(c, s, args);
    assert n.calls[|n.calls| - 1].time == s.now;
    if MaxWaitOver(c, n) {
      assert s.maxTimeoutId.Some? ==> s.timeoutId != s.maxTimeoutId;
    } else if c.maxWait.Some? && s.maxTimeoutId.None? {
      assert Remaining(c.maxWait.value, n.now, n.lastCalled) == n.lastCalled + c.maxWait.value - n.now;
    }
  }

  lemma MidLastCalled<A>(c: Config, s: State<A>, args: A)
    requires Valid(c) && Sound(c, s) && Timely(c, s)
    ensures LastCalledFits(c, AtMaxWait(c, Noted(c, s, args)))
  {
    var n := Noted(c, s, args);
    AtMaxWaitParts(c, n);
    if c.maxWait.Some? && !c.leading && !MaxWaitOver(c, n) {
      if s.maxTimeoutId.Some? {
        var k :| LastNth(s.invoked) <= k < |s.calls| && s.calls[k].time == s.lastCalled;
        assert n.calls[k].time == n.lastCalled;
      } else {
        assert n.calls[|s.calls|].time == n.lastCalled;
      }
    }
  }

  lemma MidPending<A>(c: Config, s: State<A>, args: A)
    requires Valid(c) && Sound(c, s) && Timely(c, s)
    ensures MaxPending(c, AtMaxWait(c, Noted(c, s, args)))
  {
    AtMaxWaitParts(c, Noted(c, s, args));
  }

  lemma MidTimelyHolds<A>(c: Config, s: State<A>, args: A)
    requires Valid(c) && Sound(c, s) && Timely(c, s)
    ensures MidTimely(c, AtMaxWait(c, Noted(c, s, args)))
  {
    AtMaxWaitParts(c, Noted(c, s, args));
    MidJustified(c, s, args);
    MidTimersDue(c, s, args);
    MidLastCalled(c, s, args);
    MidPending(c, s, args);
  }

  lemma WaitTimely<A>(c: Config, s: State<A>, isCalled: bool)
    requires Valid(c) && MidTimers(c, s, isCalled) && MidTimely(c, s)
    ensures Timely(c, AtWait(c, s, isCalled))
  {
    if c.maxWait.None? && c.leading && s.timeoutId.None? {
      JustifiedMore(c, s.calls, s.invoked, Invocation(s.now, s.args, |s.calls|));
    }
  }

  lemma CalledTimely<A>(c: Config, s: State<A>, args: A)
    requires Valid(c) && Sound(c, s) && Timely(c, s)
    ensures Timely(c, Called(c, s, args))
  {
    MidTimersHold(c, s, args);
    MidTimelyHolds(c, s, args);
    WaitTimely(c, AtMaxWait(c, Noted(c, s, args)), MaxWaitOver(c, Noted(c, s, args)));
  }

  // ----- a timer keeps it

  lemma CompleteTimely<A>(c: Config, s: State<A>, isCalled: bool, id: Option<nat>)
    requires LastCalledFits(c, s) && AllJustified(c, s.calls, s.invoked)
    requires s.calls != [] ==> s.stamp == s.calls[|s.calls| - 1].time
    requires c.maxWait.None? && s.calls != [] ==> s.stamp + c.wait <= s.now
    requires isCalled ==> Justified(c, s.calls, s.invoked, Invocation(s.now, s.args, |s.calls|))
    requires c.trailing && Lossless(c) && c.maxWait.Some? && LastNth(s.invoked) < |s.calls| ==> isCalled
    ensures Timely(c, Complete(s, isCalled, id))
  {
    if isCalled { JustifiedMore(c, s.calls, s.invoked, Invocation(s.now, s.args, |s.calls|)); }
  }

  lemma DelayedTimely<A>(c: Config, s: State<A>, id: nat)
    requires Valid(c) && Sound(c, s) && Timely(c, s) && s.timeoutId == Some(id)
    ensures Timely(c, Delayed(c, s.(timers := s.timers - {id})))
  {
    var t := s.(timers := s.timers - {id});
    if Over(c.wait, s.now, s.stamp) {
      CompleteTimely(c, t, t.trailingCall, t.maxTimeoutId);
    } else {
      RearmedTimely(c, s, id, Delayed(c, t));
    }
  }

  lemma RearmedTimely<A>(c: Config, s: State<A>, id: nat, n: State<A>)
    requires Sound(c, s) && Timely(c, s) && s.timeoutId == Some(id) && !Over(c.wait, s.now, s.stamp)
    requires n == SetTimer(s.(timers := s.timers - {id}), Remaining(c.wait, s.now, s.stamp), false)
                  .(timeoutId := Some(s.nextId))
    ensures Timely(c, n)
  {
  }

  lemma MaxDelayedTimely<A>(c: Config, s: State<A>, id: nat)
    requires Valid(c) && Sound(c, s) && Timely(c, s)
    requires s.maxTimeoutId == Some(id) && id in s.timers && s.timers[id].due <= s.now
    ensures Timely(c, MaxDelayed(c, s.(timers := s.timers - {id})))
  {
    CompleteTimely(c, s.(timers := s.timers - {id}), c.trailing, s.timeoutId);
  }

  lemma ExpireTimely<A>(c: Config, s: State<A>, id: nat)
    requires Valid(c) && Sound(c, s) && Timely(c, s) && id in s.timers && s.timers[id].due <= s.now
    ensures Timely(c, Step(c, s, Expire(id)))
  {
    if s.timers[id].isMax { MaxDelayedTimely(c, s, id); } else { DelayedTimely(c, s, id); }
  }

  lemma StepTimely<A>(c: Config, s: State<A>, op: Op<A>)
    requires Valid(c) && Sound(c, s) && Timely(c, s) && Enabled(s, op)
    ensures Timely(c, Step(c, s, op))
  {
    match op
    case Invocate(args) => CalledTimely(c, s, args);
    case Tick(t) =>
    case Expire(id) => ExpireTimely(c, s, id);
  }

  lemma {:induction false} RunTimely<A>(c: Config, start: nat, ops: seq<Op<A>>)
    requires Valid(c) && Run(c, start, ops)
    ensures Timely(c, After(c, start, ops))
  {
    if ops != [] {
      RunSound(c, start, ops[..|ops| - 1]);
      RunTimely(c, start, ops[..|ops| - 1]);
      StepTimely(c, After(c, start, ops[..|ops| - 1]), ops[|ops| - 1]);
    }
  }

  // ----- what users may rely on

  /** Every run has a reason: the caller has been silent for `wait`; or, without `maxWait`, it is the leading call after
      such a silence; or `maxWait` is over. Without `trailing` it is at its own call. */
  lemma RunsJustified<A>(c: Config, start: nat, ops: seq<Op<A>>, i: nat)
    requires Valid(c) && Run(c, start, ops) && i < |After(c, start, ops).invoked|
    ensures var invoked := After(c, start, ops).invoked; Justified(c, Made(start, ops), invoked[..i], invoked[i])
  {
    RunTimely(c, start, ops);
    HistoryOf(c, start, ops);
    var s := After(c, start, ops);
    assert Justified(c, s.calls, s.invoked[..i], s.invoked[i]);
  }

  /** The next run of the latest call, now. */
  function RunNow<A>(s: State<A>): Invocation<A>
    requires s.calls != []
  {
    Invocation(s.now, Some(s.calls[|s.calls| - 1].args), |s.calls|)
  }

  /** A call is run at once by the `maxWait` part or as a leading one. */
  predicate RunsCall<A>(c: Config, s: State<A>, args: A) {
    MaxWaitOver(c, Noted(c, s, args)) || (c.maxWait.None? && c.leading && s.timeoutId.None?)
  }

  lemma CallAdds<A>(c: Config, s: State<A>, args: A)
    ensures var n := Called(c, s, args);
            n.calls != [] && n.invoked == if RunsCall(c, s, args) then s.invoked + [RunNow(n)] else s.invoked
  {
    var n := Noted(c, s, args);
    CallHistory(c, s, args);
    AtMaxWaitParts(c, n);
    var m := AtMaxWait(c, n);
    assert n.calls[|n.calls| - 1] == Call(s.now, args);
    assert AtWait(c, m, MaxWaitOver(c, n)).invoked ==
           if c.maxWait.None? && c.leading && m.timeoutId.None? then m.invoked + [Invocation(m.now, m.args, |m.calls|)]
           else m.invoked;
  }

  lemma ExpireAdds<A>(c: Config, s: State<A>, id: nat)
    requires Valid(c) && Sound(c, s) && Timely(c, s) && Enabled(s, Expire(id))
    ensures var n := Step(c, s, Expire(id));
            n.invoked == s.invoked || (s.calls != [] && n.invoked == s.invoked + [RunNow(s)])
  {
  }

  lemma StepAdds<A>(c: Config, s: State<A>, op: Op<A>)
    requires Valid(c) && Sound(c, s) && Timely(c, s) && Enabled(s, op)
    ensures var n := Step(c, s, op);
            n.invoked == s.invoked || (n.calls != [] && n.invoked == s.invoked + [RunNow(n)])
  {
    StepHistory(c, s, op);
    match op
    case Invocate(args) => CallAdds(c, s, args);
    case Tick(t) =>
    case Expire(id) => ExpireAdds(c, s, id);
  }

  /** Each step runs nothing, or the latest call now. */
  lemma {:induction false} RunsAreNow<A>(c: Config, start: nat, ops: seq<Op<A>>)
    requires Valid(c) && Run(c, start, ops) && ops != []
    ensures var before, after := After(c, start, ops[..|ops| - 1]).invoked, After(c, start, ops).invoked;
            var calls := Made(start, ops);
            || after == before
            || (calls != [] && after == before + [Invocation(Clock(start, ops), Some(calls[|calls| - 1].args),
                                                             |calls|)])
  {
    var s, op := After(c, start, ops[..|ops| - 1]), ops[|ops| - 1];
    RunSound(c, start, ops[..|ops| - 1]);
    RunTimely(c, start, ops[..|ops| - 1]);
    HistoryOf(c, start, ops);
    StepAdds(c, s, op);
  }

  /** A timer is due that runs the latest call now. */
  ghost predicate WillRun<A>(c: Config, s: State<A>) {
    exists id: nat :: Enabled(s, Expire(id)) && s.calls != [] &&
                      Step(c, s, Expire(id)).invoked == s.invoked + [RunNow(s)]
  }

  /** With `trailing`, in the configurations that drop no call: once the caller has been silent for `wait` after a call
      that has not been run, a timer is due that runs it; and the same once `maxWait` is over since the first of the
      calls not run. */
  lemma SilenceRuns<A>(c: Config, start: nat, ops: seq<Op<A>>)
    requires Valid(c) && c.trailing && Lossless(c) && Run(c, start, ops)
    ensures var s, calls := After(c, start, ops), Made(start, ops);
            LastNth(s.invoked) < |calls| &&
            (|| calls[|calls| - 1].time + c.wait <= Clock(start, ops)
             || (c.maxWait.Some? && calls[LastNth(s.invoked)].time + c.maxWait.value <= Clock(start, ops)))
            ==> WillRun(c, s)
  {
    RunSound(c, start, ops);
    RunTimely(c, start, ops);
    HistoryOf(c, start, ops);
    var s := After(c, start, ops);
    if LastNth(s.invoked) < |s.calls| {
      if c.maxWait.Some? && s.calls[LastNth(s.invoked)].time + c.maxWait.value <= s.now {
        MaxRuns(c, s);
      } else if s.calls[|s.calls| - 1].time + c.wait <= s.now {
        WaitRunsCall(c, s);
      }
    }
  }

  lemma MaxRuns<A>(c: Config, s: State<A>)
    requires Valid(c) && Sound(c, s) && Timely(c, s) && c.trailing && Lossless(c) && c.maxWait.Some?
    requires LastNth(s.invoked) < |s.calls| && s.calls[LastNth(s.invoked)].time + c.maxWait.value <= s.now
    ensures WillRun(c, s)
  {
    var id := s.maxTimeoutId.value;
    assert Step(c, s, Expire(id)).invoked == s.invoked + [RunNow(s)];
  }

  lemma WaitRunsCall<A>(c: Config, s: State<A>)
    requires Valid(c) && Sound(c, s) && Timely(c, s) && c.trailing && Lossless(c)
    requires LastNth(s.invoked) < |s.calls| && s.calls[|s.calls| - 1].time + c.wait <= s.now
    ensures WillRun(c, s)
  {
    var id := if s.timeoutId.Some? then s.timeoutId.value else s.maxTimeoutId.value;
    assert Step(c, s, Expire(id)).invoked == s.invoked + [RunNow(s)];
  }

  /** A `wait` timer that expires before the caller has been silent for `wait` runs nothing, and is set anew for
      `wait` after the latest call. */
  lemma WaitsOn<A>(c: Config, start: nat, ops: seq<Op<A>>, id: nat)
    requires Valid(c) && Run(c, start, ops) && Enabled(After(c, start, ops), Expire(id))
    requires !After(c, start, ops).timers[id].isMax
    ensures var calls := Made(start, ops);
            var s, n := After(c, start, ops), Step(c, After(c, start, ops), Expire(id));
            && calls != []
            && (calls[|calls| - 1].time + c.wait > Clock(start, ops) ==>
                  && n.invoked == s.invoked && n.timeoutId.Some? && n.timeoutId.value in n.timers
                  && n.timers[n.timeoutId.value] == Timer(calls[|calls| - 1].time + c.wait, false))
  {
    RunSound(c, start, ops);
    RunTimely(c, start, ops);
    HistoryOf(c, start, ops);
  }

  /** Which calls are run at once: without `maxWait` the leading ones, made when no timer is pending; with it, those
      made when it is over since the latest run or, without `leading`, since the first call not run. */
  lemma CallRunsAtOnce<A>(c: Config, start: nat, ops: seq<Op<A>>, args: A)
    requires Valid(c) && Run(c, start, ops)
    ensures var s, now := After(c, start, ops), Clock(start, ops);
            var calls := Made(start, ops) + [Call(now, args)];
            var runs := Step(c, s, Invocate(args)).invoked != s.invoked;
            && (c.maxWait.None? ==> (runs <==> c.leading && s.timers == map[]))
            && (c.maxWait.Some? && c.leading ==> (runs <==> LastTime(s.invoked) + c.maxWait.value <= now))
            && (c.maxWait.Some? && c.trailing && !c.leading ==>
                  LastNth(s.invoked) < |calls| &&
                  (runs <==> calls[LastNth(s.invoked)].time + c.maxWait.value <= now))
            && (Made(start, ops) == [] ==> s.timers == map[])
  {
    RunSound(c, start, ops);
    RunTimely(c, start, ops);
    HistoryOf(c, start, ops);
    CallAdds(c, After(c, start, ops), args);
    RunsCallExact(c, After(c, start, ops), args);
  }

  lemma RunsCallExact<A>(c: Config, s: State<A>, args: A)
    requires Valid(c) && Sound(c, s) && Timely(c, s)
    ensures var calls, runs := s.calls + [Call(s.now, args)], RunsCall(c, s, args);
            && (c.maxWait.None? ==> (runs <==> c.leading && s.timers == map[]))
            && (c.maxWait.Some? && c.leading ==> (runs <==> LastTime(s.invoked) + c.maxWait.value <= s.now))
            && (c.maxWait.Some? && c.trailing && !c.leading ==>
                  LastNth(s.invoked) < |calls| &&
                  (runs <==> calls[LastNth(s.invoked)].time + c.maxWait.value <= s.now))
            && (s.calls == [] ==> s.timers == map[])
  {
  }
}
