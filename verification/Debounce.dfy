/** lodash's `debounce` and `throttle`: one function with two timers, in a world where time passes and timers fire
    when they are due or later, in any order. */
module Debounce {
  import opened Options

  /** The options after the normalisation at the head of `debounce`. */
  datatype Config = Config(wait: nat, maxWait: Option<nat>, leading: bool, trailing: bool)

  function Configure(wait: int, maxWait: Option<int>, leading: bool, trailing: bool): (c: Config)
    ensures c.maxWait.Some? ==> c.wait <= c.maxWait.value
  {
    var w := if wait < 0 then 0 else wait;
    var m := if maxWait.None? then None else Some(if maxWait.value < w then w else maxWait.value);
    Config(w, m, leading, trailing)
  }

  /** `throttle` is `debounce` with `maxWait` equal to `wait`. */
  function Throttle(wait: int, leading: bool, trailing: bool): (c: Config)
    ensures c.maxWait == Some(c.wait)
  {
    Configure(wait, Some(wait), leading, trailing)
  }

  datatype Timer = Timer(due: nat, isMax: bool)

  datatype Call<A> = Call(time: nat, args: A)

  /** One run of the function: when, with what, and how many calls had been made by then. */
  datatype Invocation<A> = Invocation(time: nat, args: Option<A>, nth: nat)

  /** The closure variables (without `thisArg` and `result`), the clock, the pending timers, and what happened. */
  datatype State<A> = State(args: Option<A>, timeoutId: Option<nat>, maxTimeoutId: Option<nat>, stamp: nat,
                            trailingCall: bool, lastCalled: nat,
                            now: nat, timers: map<nat, Timer>, nextId: nat,
                            calls: seq<Call<A>>, invoked: seq<Invocation<A>>)

  function Initial<A>(now: nat): State<A> {
    State(None, None, None, 0, false, 0, now, map[], 1, [], [])
  }

  function SetTimer<A>(s: State<A>, delay: nat, isMax: bool): State<A> {
    s.(timers := s.timers[s.nextId := Timer(s.now + delay, isMax)], nextId := s.nextId + 1)
  }

  function ClearTimer<A>(s: State<A>, id: Option<nat>): State<A> {
    if id.Some? then s.(timers := s.timers - {id.value}) else s
  }

  /** `result = func.apply(thisArg, args)` */
  function Invoke<A>(s: State<A>): State<A> {
    s.(invoked := s.invoked + [Invocation(s.now, s.args, |s.calls|)])
  }

  function Forget<A>(s: State<A>): State<A> {
    if s.timeoutId.None? && s.maxTimeoutId.None? then s.(args := None) else s
  }

  function Complete<A>(s: State<A>, isCalled: bool, id: Option<nat>): State<A> {
    var t := ClearTimer(s, id).(timeoutId := None, maxTimeoutId := None, trailingCall := false);
    if isCalled then Forget(Invoke(t.(lastCalled := s.now))) else t
  }

  function Remaining(wait: nat, now: nat, since: nat): int {
    wait - (now - since)
  }

  predicate Over(wait: nat, now: nat, since: nat) {
    Remaining(wait, now, since) <= 0 || Remaining(wait, now, since) > wait
  }

  function Delayed<A>(c: Config, s: State<A>): State<A> {
    if Over(c.wait, s.now, s.stamp) then Complete(s, s.trailingCall, s.maxTimeoutId)
    else SetTimer(s, Remaining(c.wait, s.now, s.stamp), false).(timeoutId := Some(s.nextId))
  }

  function MaxDelayed<A>(c: Config, s: State<A>): State<A> {
    Complete(s, c.trailing, s.timeoutId)
  }

  /** The first part of `debounced`: the arguments, the time and the trailing flag are noted. */
  function Noted<A>(c: Config, s: State<A>, args: A): State<A> {
    s.(args := Some(args), stamp := s.now, trailingCall := c.trailing && (s.timeoutId.Some? || !c.leading),
       calls := s.calls + [Call(s.now, args)],
       lastCalled := if c.maxWait.Some? && s.maxTimeoutId.None? && !c.leading then s.now else s.lastCalled)
  }

  /** Does `maxWait` demand a run at once? */
  predicate MaxWaitOver<A>(c: Config, s: State<A>) {
    c.maxWait.Some? && Over(c.maxWait.value, s.now, s.lastCalled)
  }

  /** The middle part: run, or arm the `maxWait` timer. */
  function AtMaxWait<A>(c: Config, s: State<A>): State<A> {
    if c.maxWait.None? then s
    else if MaxWaitOver(c, s) then
      Invoke(ClearTimer(s, s.maxTimeoutId).(maxTimeoutId := None, lastCalled := s.now))
    else if s.maxTimeoutId.None? then
      SetTimer(s, Remaining(c.maxWait.value, s.now, s.lastCalled), true).(maxTimeoutId := Some(s.nextId))
    else s
  }

  /** The last part: clear or arm the `wait` timer, and run on the leading edge. */
  function AtWait<A>(c: Config, s: State<A>, isCalled: bool): State<A> {
    var leadingCall := c.maxWait.None? && c.leading && s.timeoutId.None?;
    var t := if isCalled && s.timeoutId.Some? then ClearTimer(s, s.timeoutId).(timeoutId := None)
             else if s.timeoutId.None? && c.maxWait != Some(c.wait) then
               SetTimer(s, c.wait, false).(timeoutId := Some(s.nextId))
             else s;
    var u := if leadingCall then Invoke(t) else t;
    if isCalled || leadingCall then Forget(u) else u
  }

  function Called<A>(c: Config, s: State<A>, args: A): State<A> {
    var noted := Noted(c, s, args);
    AtWait(c, AtMaxWait(c, noted), MaxWaitOver(c, noted))
  }

  // ----- the world

  datatype Op<A> = Invocate(args: A) | Tick(now: nat) | Expire(id: nat)

  /** Time does not go back, and no timer fires early. */
  predicate Enabled<A>(s: State<A>, op: Op<A>) {
    match op
    case Invocate(_) => true
    case Tick(t) => s.now <= t
    case Expire(id) => id in s.timers && s.timers[id].due <= s.now
  }

  function Step<A>(c: Config, s: State<A>, op: Op<A>): State<A>
    requires Enabled(s, op)
  {
    match op
    case Invocate(args) => Called(c, s, args)
    case Tick(t) => s.(now := t)
    case Expire(id) =>
      var t := s.(timers := s.timers - {id});
      if s.timers[id].isMax then MaxDelayed(c, t) else Delayed(c, t)
  }

  ghost predicate Run<A>(c: Config, start: nat, ops: seq<Op<A>>)
    decreases |ops|, 0
  {
    ops == [] || (Run(c, start, ops[..|ops| - 1]) && Enabled(After(c, start, ops[..|ops| - 1]), ops[|ops| - 1]))
  }

  function After<A>(c: Config, start: nat, ops: seq<Op<A>>): State<A>
    requires Run(c, start, ops)
    decreases |ops|, 1
  {
    if ops == [] then Initial(start) else Step(c, After(c, start, ops[..|ops| - 1]), ops[|ops| - 1])
  }

  // ----- the invariant

  /** The latest call has been run. */
  predicate Served<A>(calls: seq<Call<A>>, invoked: seq<Invocation<A>>) {
    invoked != [] && invoked[|invoked| - 1].nth == |calls|
  }

  /** The ids are those of the pending timers, each under its own kind. */
  ghost predicate TimersMatch<A>(s: State<A>) {
    && (forall id :: id in s.timers <==> s.timeoutId == Some(id) || s.maxTimeoutId == Some(id))
    && (s.timeoutId.Some? ==> s.timeoutId.value < s.nextId && !s.timers[s.timeoutId.value].isMax)
    && (s.maxTimeoutId.Some? ==> s.maxTimeoutId.value < s.nextId && s.timers[s.maxTimeoutId.value].isMax)
  }

  /** The `maxWait` timer is due no earlier than `maxWait` after the last run. */
  ghost predicate MaxDue<A>(c: Config, s: State<A>)
    requires s.maxTimeoutId.Some? && c.maxWait.Some?
  {
    var id := s.maxTimeoutId.value;
    id in s.timers && s.timers[id].due >= s.lastCalled + c.maxWait.value
  }

  /** Which timers the configuration uses. */
  ghost predicate TimersFit<A>(c: Config, s: State<A>) {
    && (c.maxWait.None? ==> s.maxTimeoutId.None?)
    && (c.maxWait == Some(c.wait) ==> s.timeoutId.None?)
    && (s.maxTimeoutId.Some? ==> s.timeoutId.Some? || c.maxWait == Some(c.wait))
    && (s.maxTimeoutId.Some? ==> MaxDue(c, s))
  }

  ghost predicate History<A>(s: State<A>) {
    && s.lastCalled <= s.now && s.stamp <= s.now
    && (s.timeoutId.Some? || s.maxTimeoutId.Some? ==>
          s.calls != [] && s.args == Some(s.calls[|s.calls| - 1].args) && s.stamp == s.calls[|s.calls| - 1].time)
    && (Served(s.calls, s.invoked) ==> s.maxTimeoutId.None? && (s.timeoutId.None? || !s.trailingCall))
  }

  /** Each run is of the latest call made by then, with its arguments; no call runs twice. */
  ghost predicate RunsOnce<A>(calls: seq<Call<A>>, invoked: seq<Invocation<A>>) {
    && (forall i :: 0 <= i < |invoked| ==>
          0 < invoked[i].nth <= |calls| && invoked[i].args == Some(calls[invoked[i].nth - 1].args))
    && (forall i, j :: 0 <= i < j < |invoked| ==> invoked[i].nth < invoked[j].nth)
  }

  /** Runs are at least `wait` apart, the last one not after `last`. */
  ghost predicate Spaced<A>(wait: nat, invoked: seq<Invocation<A>>, last: nat) {
    && (forall i, j :: 0 <= i < j < |invoked| ==> invoked[i].time + wait <= invoked[j].time)
    && (forall i :: 0 <= i < |invoked| ==> invoked[i].time <= last)
  }

  /** The configurations under which a pending call is never dropped. */
  predicate Lossless(c: Config) {
    c.maxWait.None? || !c.leading || c.maxWait == Some(c.wait)
  }

  /** The latest call has run, or a timer that will run it is pending. */
  ghost predicate Pending<A>(c: Config, s: State<A>) {
    s.calls != [] && !Served(s.calls, s.invoked) ==>
      && (s.timeoutId.Some? || s.maxTimeoutId.Some?)
      && (s.timeoutId.Some? ==> s.trailingCall)
  }

  ghost predicate Valid(c: Config) {
    c.maxWait.Some? ==> c.wait <= c.maxWait.value
  }

  ghost predicate Sound<A>(c: Config, s: State<A>) {
    && TimersMatch(s) && TimersFit(c, s) && History(s) && RunsOnce(s.calls, s.invoked)
    && (c.maxWait == Some(c.wait) ==> Spaced(c.wait, s.invoked, s.lastCalled))
    && (c.trailing && Lossless(c) ==> Pending(c, s))
  }

  // ----- a call, part by part

  /** The timers once the `maxWait` part is done: unless a run was demanded, the `maxWait` timer is pending. */
  ghost predicate MidTimers<A>(c: Config, s: State<A>, isCalled: bool) {
    && TimersMatch(s)
    && (c.maxWait == Some(c.wait) ==> s.timeoutId.None?)
    && (isCalled ==> c.maxWait.Some?)
    && (s.maxTimeoutId.Some? <==> c.maxWait.Some? && !isCalled)
    && (s.maxTimeoutId.Some? ==> MaxDue(c, s))
    && s.trailingCall == (c.trailing && (s.timeoutId.Some? || !c.leading))
    // without `leading`, a run at once means that timers ran late, and then the other one is late as well
    && (isCalled && !c.leading && s.timeoutId.None? ==> c.maxWait == Some(c.wait))
  }

  ghost predicate MidRuns<A>(c: Config, s: State<A>, isCalled: bool) {
    && s.calls != [] && s.args == Some(s.calls[|s.calls| - 1].args) && s.stamp == s.calls[|s.calls| - 1].time == s.now
    && s.lastCalled <= s.now
    && RunsOnce(s.calls, s.invoked) && Served(s.calls, s.invoked) == isCalled
    && (c.maxWait == Some(c.wait) ==> Spaced(c.wait, s.invoked, s.lastCalled))
  }

  lemma MidTimersHold<A>(c: Config, s: State<A>, args: A)
    requires Valid(c) && Sound(c, s)
    ensures var n := Noted(c, s, args); MidTimers(c, AtMaxWait(c, n), MaxWaitOver(c, n))
  {
  }

  lemma InvokeOnce<A>(calls: seq<Call<A>>, invoked: seq<Invocation<A>>, v: Invocation<A>)
    requires RunsOnce(calls, invoked) && !Served(calls, invoked) && calls != []
    requires v.nth == |calls| && v.args == Some(calls[|calls| - 1].args)
    ensures RunsOnce(calls, invoked + [v]) && Served(calls, invoked + [v])
  {
  }

  lemma InvokeSpaced<A>(wait: nat, invoked: seq<Invocation<A>>, last: nat, v: Invocation<A>)
    requires Spaced(wait, invoked, last) && last + wait <= v.time
    ensures Spaced(wait, invoked + [v], v.time)
  {
  }

  lemma CallOnce<A>(calls: seq<Call<A>>, invoked: seq<Invocation<A>>, call: Call<A>)
    requires RunsOnce(calls, invoked)
    ensures RunsOnce(calls + [call], invoked) && !Served(calls + [call], invoked)
  {
  }

  lemma AtMaxWaitParts<A>(c: Config, n: State<A>)
    ensures var mid := AtMaxWait(c, n);
            && mid.calls == n.calls && mid.args == n.args && mid.stamp == n.stamp && mid.now == n.now
            && mid.lastCalled == (if MaxWaitOver(c, n) then n.now else n.lastCalled)
            && mid.invoked ==
               if MaxWaitOver(c, n) then n.invoked + [Invocation(n.now, n.args, |n.calls|)] else n.invoked
  {
  }

  lemma MidRunsHold<A>(c: Config, s: State<A>, args: A)
    requires Valid(c) && Sound(c, s)
    ensures var n := Noted(c, s, args); MidRuns(c, AtMaxWait(c, n), MaxWaitOver(c, n))
  {
    var n := Noted(c, s, args);
    AtMaxWaitParts(c, n);
    CallOnce(s.calls, s.invoked, Call(s.now, args));
    assert n.calls == s.calls + [Call(s.now, args)] && n.invoked == s.invoked;
    if c.maxWait.Some? && MaxWaitOver(c, n) {
      var v := Invocation(n.now, n.args, |n.calls|);
      InvokeOnce(n.calls, n.invoked, v);
      if c.maxWait == Some(c.wait) { InvokeSpaced(c.wait, n.invoked, n.lastCalled, v); }
    }
  }

  lemma WaitTimers<A>(c: Config, s: State<A>, isCalled: bool)
    requires Valid(c) && MidTimers(c, s, isCalled)
    ensures TimersMatch(AtWait(c, s, isCalled)) && TimersFit(c, AtWait(c, s, isCalled))
  {
  }

  lemma WaitRuns<A>(c: Config, s: State<A>, isCalled: bool)
    requires Valid(c) && MidTimers(c, s, isCalled) && MidRuns(c, s, isCalled)
    ensures History(AtWait(c, s, isCalled)) && RunsOnce(AtWait(c, s, isCalled).calls, AtWait(c, s, isCalled).invoked)
    ensures c.maxWait == Some(c.wait) ==>
              Spaced(c.wait, AtWait(c, s, isCalled).invoked, AtWait(c, s, isCalled).lastCalled)
  {
    if c.maxWait.None? && c.leading && s.timeoutId.None? {
      InvokeOnce(s.calls, s.invoked, Invocation(s.now, s.args, |s.calls|));
    }
  }

  lemma WaitPending<A>(c: Config, s: State<A>, isCalled: bool)
    requires Valid(c) && MidTimers(c, s, isCalled) && MidRuns(c, s, isCalled) && c.trailing && Lossless(c)
    ensures Pending(c, AtWait(c, s, isCalled))
  {
  }

  lemma CalledSound<A>(c: Config, s: State<A>, args: A)
    requires Valid(c) && Sound(c, s)
    ensures Sound(c, Called(c, s, args))
  {
    var n := Noted(c, s, args);
    MidTimersHold(c, s, args);
    MidRunsHold(c, s, args);
    WaitTimers(c, AtMaxWait(c, n), MaxWaitOver(c, n));
    WaitRuns(c, AtMaxWait(c, n), MaxWaitOver(c, n));
    if c.trailing && Lossless(c) { WaitPending(c, AtMaxWait(c, n), MaxWaitOver(c, n)); }
  }

  // ----- a timer

  lemma CompleteSound<A>(c: Config, s: State<A>, isCalled: bool, id: Option<nat>)
    requires Valid(c) && History(s) && RunsOnce(s.calls, s.invoked)
    requires isCalled ==> !Served(s.calls, s.invoked) && s.calls != []
    requires isCalled ==> s.args == Some(s.calls[|s.calls| - 1].args)
    requires ClearTimer(s, id).timers == map[]
    requires c.maxWait == Some(c.wait) ==> Spaced(c.wait, s.invoked, s.lastCalled)
    requires c.maxWait == Some(c.wait) && isCalled ==> s.lastCalled + c.wait <= s.now
    requires c.trailing && Lossless(c) ==> isCalled || Served(s.calls, s.invoked) || s.calls == []
    ensures Sound(c, Complete(s, isCalled, id))
  {
    if isCalled {
      var v := Invocation(s.now, s.args, |s.calls|);
      InvokeOnce(s.calls, s.invoked, v);
      if c.maxWait == Some(c.wait) { InvokeSpaced(c.wait, s.invoked, s.lastCalled, v); }
    }
  }

  lemma DelayedSound<A>(c: Config, s: State<A>, id: nat)
    requires Valid(c) && Sound(c, s) && s.timeoutId == Some(id) && id in s.timers
    ensures Sound(c, Delayed(c, s.(timers := s.timers - {id})))
  {
    var t := s.(timers := s.timers - {id});
    if Over(c.wait, s.now, s.stamp) {
      CompleteSound(c, t, t.trailingCall, t.maxTimeoutId);
    }
  }

  lemma MaxDelayedSound<A>(c: Config, s: State<A>, id: nat)
    requires Valid(c) && Sound(c, s) && s.maxTimeoutId == Some(id) && id in s.timers && s.timers[id].due <= s.now
    ensures Sound(c, MaxDelayed(c, s.(timers := s.timers - {id})))
  {
    CompleteSound(c, s.(timers := s.timers - {id}), c.trailing, s.timeoutId);
  }

  lemma StepSound<A>(c: Config, s: State<A>, op: Op<A>)
    requires Valid(c) && Sound(c, s) && Enabled(s, op)
    ensures Sound(c, Step(c, s, op))
  {
    match op
    case Invocate(args) => CalledSound(c, s, args);
    case Tick(t) =>
    case Expire(id) => if s.timers[id].isMax { MaxDelayedSound(c, s, id); } else { DelayedSound(c, s, id); }
  }

  lemma {:induction false} RunSound<A>(c: Config, start: nat, ops: seq<Op<A>>)
    requires Valid(c) && Run(c, start, ops)
    ensures Sound(c, After(c, start, ops))
  {
    if ops != [] {
      RunSound(c, start, ops[..|ops| - 1]);
      StepSound(c, After(c, start, ops[..|ops| - 1]), ops[|ops| - 1]);
    }
  }

  // ----- what users may rely on

  /** In every run each call is run at most once, with its own arguments, and only while it is the latest. */
  lemma {:induction false} AtMostOncePerCall<A>(c: Config, start: nat, ops: seq<Op<A>>)
    requires Valid(c) && Run(c, start, ops)
    ensures RunsOnce(After(c, start, ops).calls, After(c, start, ops).invoked)
  {
    RunSound(c, start, ops);
  }

  /** Any two runs of a throttled function are at least `wait` apart. */
  lemma ThrottleSpacing<A>(wait: int, leading: bool, trailing: bool, start: nat, ops: seq<Op<A>>)
    requires Run(Throttle(wait, leading, trailing), start, ops)
    ensures var c := Throttle(wait, leading, trailing); var invoked := After(c, start, ops).invoked;
            forall i, j :: 0 <= i < j < |invoked| ==> invoked[i].time + wait <= invoked[j].time
  {
    RunSound(Throttle(wait, leading, trailing), start, ops);
  }

  /** With `trailing` on, a call of a throttled function that was not run at once leaves a timer that runs it. */
  lemma {:induction false} ThrottleTrailing<A>(wait: int, leading: bool, start: nat, ops: seq<Op<A>>)
    requires Run(Throttle(wait, leading, true), start, ops)
    ensures var c := Throttle(wait, leading, true); var s := After(c, start, ops);
            s.calls != [] && !Served(s.calls, s.invoked) ==>
              && s.maxTimeoutId.Some? && s.maxTimeoutId.value in s.timers
              && var later := MaxDelayed(c, s.(timers := s.timers - {s.maxTimeoutId.value}));
                 later.invoked == s.invoked + [Invocation(s.now, Some(s.calls[|s.calls| - 1].args), |s.calls|)]
  {
    RunSound(Throttle(wait, leading, true), start, ops);
  }

  /** The latest call has not run, and no timer is left to run it. */
  ghost predicate Dropped<A>(s: State<A>) {
    s.calls != [] && !Served(s.calls, s.invoked) && s.timers == map[]
  }

  ghost predicate NeverDrops(c: Config) {
    forall start, ops: seq<Op<int>> :: Run(c, start, ops) ==> !Dropped(After(c, start, ops))
  }

  /** With `trailing` on, no run ever drops a call, exactly when the configuration is lossless: no `maxWait`, no
      `leading`, or `maxWait` equal to `wait`. */
  lemma DropsNoCall(c: Config)
    requires Valid(c) && c.trailing
    ensures NeverDrops(c) <==> Lossless(c)
  {
    if Lossless(c) {
      forall start, ops: seq<Op<int>> | Run(c, start, ops) ensures !Dropped(After(c, start, ops)) {
        RunSound(c, start, ops);
      }
    } else {
      var start := c.maxWait.value;
      var ops := LossyRun(c, start);
      assert Run(c, start, ops) && Dropped(After(c, start, ops));
    }
  }

  lemma Extend<A>(c: Config, start: nat, ops: seq<Op<A>>, op: Op<A>)
    requires Run(c, start, ops) && Enabled(After(c, start, ops), op)
    ensures Run(c, start, ops + [op]) && After(c, start, ops + [op]) == Step(c, After(c, start, ops), op)
  {
  }

  /** A burst of two calls, then a third one right after the trailing run: its `wait` timer expires before its
      `maxWait` timer, clears it, and does not run the call. */
  lemma LossyRun(c: Config, start: nat) returns (ops: seq<Op<int>>)
    requires Valid(c) && c.trailing && !Lossless(c) && c.maxWait.value <= start
    ensures Run(c, start, ops) && Dropped(After(c, start, ops))
  {
    ops := LossyThird(c, start);
    var now := After(c, start, ops).now + c.wait;
    Extend(c, start, ops, Tick(now));
    ops := ops + [Tick(now)];
    Extend(c, start, ops, Expire(4));
    ops := ops + [Expire(4)];
    assert After(c, start, ops).timers == map[];
  }

  /** The third call, which waits for both timers. */
  lemma LossyThird(c: Config, start: nat) returns (ops: seq<Op<int>>)
    requires Valid(c) && c.trailing && !Lossless(c) && c.maxWait.value <= start
    ensures Run(c, start, ops)
    ensures var s := After(c, start, ops);
            && s.timers.Keys == {3, 4} && s.timers[4] == Timer(s.now + c.wait, false)
            && s.timeoutId == Some(4) && s.maxTimeoutId == Some(3) && !s.trailingCall && s.stamp == s.now
            && |s.calls| == 3 && s.invoked != [] && s.invoked[|s.invoked| - 1].nth == 2
  {
    ops := LossyBurst(c, start);
    ThirdCall(c, After(c, start, ops));
    Extend(c, start, ops, Invocate(2));
    ops := ops + [Invocate(2)];
  }

  lemma ThirdCall(c: Config, s: State<int>)
    requires Valid(c) && c.trailing && !Lossless(c) && s.timers == map[] && s.timeoutId.None? && s.maxTimeoutId.None?
    requires s.nextId == 3 && s.now == s.lastCalled
    ensures var t := Called(c, s, 2);
            && t.timers.Keys == {3, 4} && t.timers[4] == Timer(t.now + c.wait, false)
            && t.timeoutId == Some(4) && t.maxTimeoutId == Some(3) && !t.trailingCall && t.stamp == t.now
            && t.calls == s.calls + [Call(s.now, 2)] && t.invoked == s.invoked
  {
    assert !MaxWaitOver(c, Noted(c, s, 2));
    var armed := AtMaxWait(c, Noted(c, s, 2));
    assert armed.timers == map[3 := Timer(s.now + c.maxWait.value, true)] && armed.nextId == 4;
  }

  /** The burst and its trailing run. */
  lemma LossyBurst(c: Config, start: nat) returns (ops: seq<Op<int>>)
    requires Valid(c) && c.trailing && !Lossless(c) && c.maxWait.value <= start
    ensures Run(c, start, ops)
    ensures var s := After(c, start, ops);
            && s.timers == map[] && s.timeoutId.None? && s.maxTimeoutId.None?
            && s.nextId == 3 && s.now == s.lastCalled && |s.calls| == 2
            && s.invoked != [] && s.invoked[|s.invoked| - 1].nth == 2
  {
    ops := [];
    Extend(c, start, ops, Invocate(0));
    ops := ops + [Invocate(0)];
    assert After(c, start, ops) == State(Some(0), Some(1), None, start, false, start, start,
                                         map[1 := Timer(start + c.wait, false)], 2,
                                         [Call(start, 0)], [Invocation(start, Some(0), 1)]);
    Extend(c, start, ops, Invocate(1));
    ops := ops + [Invocate(1)];
    Extend(c, start, ops, Tick(start + c.wait));
    ops := ops + [Tick(start + c.wait)];
    Extend(c, start, ops, Expire(1));
    ops := ops + [Expire(1)];
  }

  // ----- the object

  /** The closure made by `debounce`, together with the clock and the timers it uses. */
  class Debounced<A> {
    const c: Config
    var args: Option<A>
    var timeoutId: Option<nat>
    var maxTimeoutId: Option<nat>
    var stamp: nat
    var trailingCall: bool
    var lastCalled: nat
    var now: nat
    var timers: map<nat, Timer>
    var nextId: nat
    ghost var calls: seq<Call<A>>
    ghost var invoked: seq<Invocation<A>>

    ghost function Now(): State<A>
      reads this
    {
      State(args, timeoutId, maxTimeoutId, stamp, trailingCall, lastCalled, now, timers, nextId, calls, invoked)
    }

    constructor (c: Config, now: nat)
      ensures this.c == c && Now() == Initial(now)
    {
      this.c, this.now := c, now;
      args, timeoutId, maxTimeoutId, stamp, trailingCall, lastCalled := None, None, None, 0, false, 0;
      timers, nextId, calls, invoked := map[], 1, [], [];
    }

    method SetTimeout(delay: nat, isMax: bool) returns (id: nat)
      modifies this
      ensures id == old(nextId) && Now() == SetTimer(old(Now()), delay, isMax)
    {
      id := nextId;
      timers, nextId := timers[id := Timer(now + delay, isMax)], nextId + 1;
    }

    method ClearTimeout(id: Option<nat>)
      modifies this
      ensures Now() == ClearTimer(old(Now()), id)
    {
      if id.Some? { timers := timers - {id.value}; }
    }

    method Apply()
      modifies this
      ensures Now() == Invoke(old(Now()))
    {
      invoked := invoked + [Invocation(now, args, |calls|)];
    }

    method CompleteTimer(isCalled: bool, id: Option<nat>)
      modifies this
      ensures Now() == Complete(old(Now()), isCalled, id)
    {
      ClearTimeout(id);
      maxTimeoutId, timeoutId, trailingCall := None, None, false;
      if isCalled {
        lastCalled := now;
        Apply();
        if timeoutId.None? && maxTimeoutId.None? { args := None; }
      }
    }

    method DelayedCallback()
      modifies this
      ensures Now() == Delayed(c, old(Now()))
    {
      var remaining := c.wait - (now - stamp);
      if remaining <= 0 || remaining > c.wait {
        CompleteTimer(trailingCall, maxTimeoutId);
      } else {
        var id := SetTimeout(remaining, false);
        timeoutId := Some(id);
      }
    }

    method MaxDelayedCallback()
      modifies this
      ensures Now() == MaxDelayed(c, old(Now()))
    {
      CompleteTimer(c.trailing, timeoutId);
    }

    /** The debounced function itself. */
    method Debounce(arguments: A)
      modifies this
      ensures Now() == Called(c, old(Now()), arguments)
    {
      args, stamp := Some(arguments), now;
      calls := calls + [Call(now, arguments)];
      trailingCall := c.trailing && (timeoutId.Some? || !c.leading);
      if c.maxWait.Some? && maxTimeoutId.None? && !c.leading { lastCalled := stamp; }
      assert Now() == Noted(c, old(Now()), arguments);
      var isCalled := CheckMaxWait();
      CheckWait(isCalled);
    }

    method CheckMaxWait() returns (isCalled: bool)
      requires stamp == now
      modifies this
      ensures isCalled == MaxWaitOver(c, old(Now())) && Now() == AtMaxWait(c, old(Now()))
    {
      isCalled := false;
      if c.maxWait.Some? {
        var remaining := c.maxWait.value - (stamp - lastCalled);
        isCalled := remaining <= 0 || remaining > c.maxWait.value;
        if isCalled {
          ClearTimeout(maxTimeoutId);
          maxTimeoutId, lastCalled := None, stamp;
          Apply();
        } else if maxTimeoutId.None? {
          var id := SetTimeout(remaining, true);
          maxTimeoutId := Some(id);
        }
      }
    }

    method CheckWait(isCalled: bool)
      modifies this
      ensures Now() == AtWait(c, old(Now()), isCalled)
    {
      var leadingCall := c.maxWait.None? && c.leading && timeoutId.None?;
      if isCalled && timeoutId.Some? {
        ClearTimeout(timeoutId);
        timeoutId := None;
      } else if timeoutId.None? && c.maxWait != Some(c.wait) {
        var id := SetTimeout(c.wait, false);
        timeoutId := Some(id);
      }
      if leadingCall { Apply(); }
      if (isCalled || leadingCall) && timeoutId.None? && maxTimeoutId.None? { args := None; }
    }
  }
}
