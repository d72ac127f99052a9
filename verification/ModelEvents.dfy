/** Backbone `Model.set` over whole runs: handlers of "change:attr" and "change" events that call `set` again. */
module ModelEvents {
  import opened Options
  import opened ModelChanges

  /** Where a call stands: before its i-th attribute event, inside it, before or inside a "change" event. */
  datatype Phase = Attrs(i: nat) | InAttr(i: nat) | Loop | InChange

  /** A running call; a silent one notifies of nothing. */
  datatype Frame = Frame(silent: bool, changes: seq<string>, phase: Phase)

  /** What happened: a write that changed a value, the start of an event. */
  datatype Entry<+V> =
    | Wrote(attr: string, options: SetOptions)
    | AttrEvent(name: string, val: Val<V>)
    | ChangeEvent(given: SetOptions)

  /** The outermost call is the first frame; `start` is a copy of the attributes taken when it began. */
  datatype Machine<V> = Machine(fields: Fields<V>, frames: seq<Frame>, log: seq<Entry<V>>, start: Attributes<V>)

  /** Code outside runs when no call does; handlers run inside events. */
  predicate UserRuns<V>(m: Machine<V>) {
    m.frames == [] || m.frames[|m.frames| - 1].phase.InAttr? || m.frames[|m.frames| - 1].phase.InChange?
  }

  datatype Step<+V> = CallSet(attrs: seq<Pair<V>>, options: SetOptions) | Proceed | EndEvent

  predicate Allowed<V>(m: Machine<V>, step: Step<V>) {
    match step
    case CallSet(attrs, o) => UserRuns(m) && Distinct(attrs)
    case Proceed => !UserRuns(m)
    case EndEvent => UserRuns(m) && m.frames != []
  }

  function Writes<V>(changes: seq<string>, o: SetOptions): seq<Entry<V>> {
    seq(|changes|, i requires 0 <= i < |changes| => Wrote(changes[i], o))
  }

  function Call<V(==)>(m: Machine<V>, idAttribute: string, attrs: seq<Pair<V>>, o: SetOptions): Machine<V> {
    var changes := Changes(m.fields.attributes, attrs);
    Machine(
      Begin(m.fields, idAttribute, attrs, o),
      m.frames + [Frame(o.silent, if o.silent then [] else changes, Attrs(0))],
      m.log + Writes(changes, o),
      if m.frames == [] then m.fields.attributes else m.start)
  }

  function WithTop(frames: seq<Frame>, phase: Phase): seq<Frame>
    requires frames != []
  {
    frames[..|frames| - 1] + [frames[|frames| - 1].(phase := phase)]
  }

  function Next<V(==)>(m: Machine<V>): Machine<V>
    requires !UserRuns(m)
  {
    var top := m.frames[|m.frames| - 1];
    match top.phase
    case Attrs(i) =>
      if i < |top.changes| then
        m.(frames := WithTop(m.frames, InAttr(i)),
           log := m.log + [AttrEvent(top.changes[i], Get(m.fields.attributes, top.changes[i]))])
      else if |m.frames| > 1 then m.(frames := m.frames[..|m.frames| - 1])
      else if top.silent then Finish(m)
      else m.(frames := WithTop(m.frames, Loop))
    case Loop =>
      if m.fields.pending.Some? then
        Machine(m.fields.(pending := None), WithTop(m.frames, InChange), m.log + [ChangeEvent(m.fields.pending.value)],
                m.start)
      else Finish(m)
    case _ => m
  }

  /** The outermost call returns. */
  function Finish<V>(m: Machine<V>): Machine<V> {
    m.(fields := m.fields.(pending := None, changing := false), frames := [])
  }

  function End<V>(m: Machine<V>): Machine<V>
    requires UserRuns(m) && m.frames != []
  {
    match m.frames[|m.frames| - 1].phase
    case InAttr(i) => m.(frames := WithTop(m.frames, Attrs(i + 1)))
    case _ => m.(frames := WithTop(m.frames, Loop))
  }

  function Apply<V(==)>(m: Machine<V>, idAttribute: string, step: Step<V>): Machine<V>
    requires Allowed(m, step)
  {
    match step
    case CallSet(attrs, o) => Call(m, idAttribute, attrs, o)
    case Proceed => Next(m)
    case EndEvent => End(m)
  }

  // ----- what the log promises

  /** The options of the last write that was not silent, unless a "change" event started after it. */
  function Unannounced<V>(log: seq<Entry<V>>): Option<SetOptions> {
    if log == [] then None
    else
      var e := log[|log| - 1];
      if e.ChangeEvent? then None
      else if e.Wrote? && !e.options.silent then Some(e.options)
      else Unannounced(log[..|log| - 1])
  }

  /** Every "change" event had a write to announce, and carries the options of the last one. */
  ghost predicate EventsJustified<V>(log: seq<Entry<V>>) {
    forall k :: 0 <= k < |log| && log[k].ChangeEvent? ==> Unannounced(log[..k]) == Some(log[k].given)
  }

  lemma {:induction false} AnnouncedMeaning<V>(log: seq<Entry<V>>)
    ensures Unannounced(log) == None <==>
            forall k :: 0 <= k < |log| && log[k].Wrote? && !log[k].options.silent ==>
              exists j :: k < j < |log| && log[j].ChangeEvent?
  {
    if log != [] {
      var n := |log| - 1;
      if !log[n].ChangeEvent? {
        AnnouncedMeaning(log[..n]);
        assert forall j :: 0 <= j < n ==> log[..n][j] == log[j];
      }
    }
  }

  /** How many writes of an attribute were not silent, and how many events it had. */
  function Written<V>(log: seq<Entry<V>>, attr: string): nat {
    if log == [] then 0
    else
      var e := log[|log| - 1];
      Written(log[..|log| - 1], attr) + if e.Wrote? && e.attr == attr && !e.options.silent then 1 else 0
  }

  function Notified<V>(log: seq<Entry<V>>, attr: string): nat {
    if log == [] then 0
    else
      var e := log[|log| - 1];
      Notified(log[..|log| - 1], attr) + if e.AttrEvent? && e.name == attr then 1 else 0
  }

  /** The attribute events that the running calls still have to start. */
  function Owed(frames: seq<Frame>, attr: string): nat {
    if frames == [] then 0 else Owed(frames[..|frames| - 1], attr) + Due(frames[|frames| - 1], attr)
  }

  function Due(f: Frame, attr: string): nat {
    if Started(f) > |f.changes| then 0 else multiset(f.changes[Started(f)..])[attr]
  }

  function Started(f: Frame): nat {
    match f.phase
    case Attrs(i) => i
    case InAttr(i) => i + 1
    case _ => |f.changes|
  }

  // ----- the invariant

  predicate FrameSound(f: Frame, outermost: bool, top: bool) {
    && Started(f) <= |f.changes|
    && (f.phase.InChange? || f.phase.Loop? ==> outermost && !f.silent)
    && (!top ==> f.phase.InAttr? || f.phase.InChange?)
    && (f.silent ==> f.changes == [])
  }

  predicate FramesSound(frames: seq<Frame>) {
    forall k :: 0 <= k < |frames| ==> FrameSound(frames[k], k == 0, k == |frames| - 1)
  }

  /** While a call runs, `changed` is the difference to the attributes at its start. */
  ghost predicate Recorded<V>(f: Fields<V>) {
    f.changing ==> IsDifference(f.changed, f.prev, f.attributes)
  }

  ghost predicate LogSound<V>(log: seq<Entry<V>>, pending: Option<SetOptions>) {
    EventsJustified(log) && pending == Unannounced(log)
  }

  ghost predicate CountsSound<V>(log: seq<Entry<V>>, frames: seq<Frame>) {
    forall attr :: Written(log, attr) == Notified(log, attr) + Owed(frames, attr)
  }

  ghost predicate Inv<V>(m: Machine<V>, idAttribute: string) {
    && FramesSound(m.frames)
    && (m.fields.changing <==> m.frames != [])
    && (m.frames == [] || m.frames[0].silent ==> m.fields.pending == None)
    && m.fields.id == Get(m.fields.attributes, idAttribute)
    && (m.fields.changing ==> m.fields.prev == m.start)
    && LogSound(m.log, m.fields.pending)
    && CountsSound(m.log, m.frames)
  }

  // ----- the log

  lemma WritesStep<V>(log: seq<Entry<V>>, changes: seq<string>, o: SetOptions)
    requires changes != []
    ensures log + Writes(changes, o) == (log + Writes(changes[..|changes| - 1], o)) + [Wrote(changes[|changes| - 1], o)]
    ensures multiset(changes) == multiset(changes[..|changes| - 1]) + multiset{changes[|changes| - 1]}
  {
    assert changes == changes[..|changes| - 1] + [changes[|changes| - 1]];
  }

  lemma {:induction false} WritesLogged<V>(log: seq<Entry<V>>, changes: seq<string>, o: SetOptions, attr: string)
    ensures Written(log + Writes(changes, o), attr) ==
            Written(log, attr) + if o.silent then 0 else multiset(changes)[attr]
    ensures Notified(log + Writes(changes, o), attr) == Notified(log, attr)
  {
    if changes == [] {
      assert log + Writes(changes, o) == log;
    } else {
      var n := |changes| - 1;
      WritesLogged(log, changes[..n], o, attr);
      WritesStep(log, changes, o);
      Logged(log + Writes(changes[..n], o), Wrote(changes[n], o));
    }
  }

  lemma {:induction false} WritesPending<V>(log: seq<Entry<V>>, changes: seq<string>, o: SetOptions)
    requires EventsJustified(log)
    ensures EventsJustified(log + Writes(changes, o))
    ensures Unannounced(log + Writes(changes, o)) == if !o.silent && changes != [] then Some(o) else Unannounced(log)
  {
    if changes == [] {
      assert log + Writes(changes, o) == log;
    } else {
      var n := |changes| - 1;
      WritesPending(log, changes[..n], o);
      WritesStep(log, changes, o);
      Logged(log + Writes(changes[..n], o), Wrote(changes[n], o));
      JustifiedMore(log + Writes(changes[..n], o), Wrote(changes[n], o));
    }
  }

  lemma JustifiedMore<V>(log: seq<Entry<V>>, e: Entry<V>)
    requires EventsJustified(log) && (e.ChangeEvent? ==> Unannounced(log) == Some(e.given))
    ensures EventsJustified(log + [e])
  {
    forall k | 0 <= k < |log| + 1 && (log + [e])[k].ChangeEvent?
      ensures Unannounced((log + [e])[..k]) == Some((log + [e])[k].given)
    {
      assert (log + [e])[..k] == log[..k];
      assert log[..|log|] == log;
    }
  }

  /** One entry more. */
  lemma Logged<V>(log: seq<Entry<V>>, e: Entry<V>)
    ensures Unannounced(log + [e]) == if e.ChangeEvent? then None
                                      else if e.Wrote? && !e.options.silent then Some(e.options) else Unannounced(log)
    ensures forall attr :: Written(log + [e], attr) ==
              Written(log, attr) + if e.Wrote? && e.attr == attr && !e.options.silent then 1 else 0
    ensures forall attr :: Notified(log + [e], attr) ==
              Notified(log, attr) + if e.AttrEvent? && e.name == attr then 1 else 0
  {
  }

  // ----- every step keeps the invariant

  lemma CallSound<V>(m: Machine<V>, idAttribute: string, attrs: seq<Pair<V>>, o: SetOptions)
    requires Inv(m, idAttribute) && Allowed(m, CallSet(attrs, o))
    ensures Inv(Call(m, idAttribute, attrs, o), idAttribute)
  {
    var changes := Changes(m.fields.attributes, attrs);
    WritesPending(m.log, changes, o);
    BeginId(m.fields, idAttribute, attrs, o);
    CallCounts(m.log, m.frames, changes, o);
    PushSound(m.frames, Frame(o.silent, if o.silent then [] else changes, Attrs(0)));
  }

  lemma BeginId<V>(f: Fields<V>, idAttribute: string, attrs: seq<Pair<V>>, o: SetOptions)
    requires f.id == Get(f.attributes, idAttribute)
    ensures Begin(f, idAttribute, attrs, o).id == Get(Begin(f, idAttribute, attrs, o).attributes, idAttribute)
  {
    if forall i :: 0 <= i < |attrs| ==> attrs[i].attr != idAttribute {
      Untouched(f.attributes, map[], map[], attrs, o.unset, idAttribute);
    }
  }

  lemma PushSound(frames: seq<Frame>, f: Frame)
    requires FramesSound(frames) && f.phase == Attrs(0) && (f.silent ==> f.changes == [])
    requires frames == [] || frames[|frames| - 1].phase.InAttr? || frames[|frames| - 1].phase.InChange?
    ensures FramesSound(frames + [f])
  {
  }

  lemma CallCounts<V>(log: seq<Entry<V>>, frames: seq<Frame>, changes: seq<string>, o: SetOptions)
    requires CountsSound(log, frames)
    ensures var f := Frame(o.silent, if o.silent then [] else changes, Attrs(0));
            CountsSound(log + Writes(changes, o), frames + [f])
  {
    var f := Frame(o.silent, if o.silent then [] else changes, Attrs(0));
    assert (frames + [f])[..|frames|] == frames;
    assert f.changes[0..] == f.changes;
    var more := log + Writes(changes, o);
    forall attr ensures Written(more, attr) == Notified(more, attr) + Owed(frames + [f], attr) {
      WritesLogged(log, changes, o, attr);
    }
  }

  /** Moving the top frame on changes what it owes, and nothing below. */
  lemma OwedTop(frames: seq<Frame>, phase: Phase, attr: string)
    requires frames != []
    ensures var top := frames[|frames| - 1];
            Owed(WithTop(frames, phase), attr) + Due(top, attr) == Owed(frames, attr) + Due(top.(phase := phase), attr)
  {
  }

  /** A move of the top frame that starts no attribute event. */
  lemma MoveSound<V>(log: seq<Entry<V>>, frames: seq<Frame>, phase: Phase)
    requires frames != [] && FramesSound(frames) && CountsSound(log, frames)
    requires var top := frames[|frames| - 1];
             Started(top.(phase := phase)) == Started(top) && FrameSound(top.(phase := phase), |frames| == 1, true)
    ensures FramesSound(WithTop(frames, phase)) && CountsSound(log, WithTop(frames, phase))
  {
  }

  lemma PopSound<V>(log: seq<Entry<V>>, frames: seq<Frame>)
    requires frames != [] && FramesSound(frames) && CountsSound(log, frames)
    requires Started(frames[|frames| - 1]) == |frames[|frames| - 1].changes|
    ensures CountsSound(log, frames[..|frames| - 1])
  {
  }

  lemma ProceedSound<V>(m: Machine<V>, idAttribute: string)
    requires Inv(m, idAttribute) && !UserRuns(m)
    ensures Inv(Next(m), idAttribute)
  {
    var top := m.frames[|m.frames| - 1];
    if top.phase.Attrs? && top.phase.i < |top.changes| {
      AttrEventSound(m, idAttribute);
    } else if top.phase.Attrs? && |m.frames| > 1 {
      PopSound(m.log, m.frames);
    } else if top.phase.Attrs? && !top.silent {
      MoveSound(m.log, m.frames, Loop);
    } else if top.phase.Loop? && m.fields.pending.Some? {
      ChangeEventSound(m, idAttribute);
    } else {
      FinishSound(m, idAttribute);
    }
  }

  lemma FinishSound<V>(m: Machine<V>, idAttribute: string)
    requires Inv(m, idAttribute) && |m.frames| == 1 && m.fields.pending.None?
    requires Started(m.frames[0]) == |m.frames[0].changes|
    ensures Inv(Finish(m), idAttribute)
  {
    PopSound(m.log, m.frames);
    assert m.frames[..0] == [];
  }

  lemma AttrEventSound<V>(m: Machine<V>, idAttribute: string)
    requires Inv(m, idAttribute) && m.frames != []
    requires var top := m.frames[|m.frames| - 1]; top.phase.Attrs? && top.phase.i < |top.changes|
    ensures Inv(Next(m), idAttribute)
  {
    var top := m.frames[|m.frames| - 1];
    var e := AttrEvent(top.changes[top.phase.i], Get(m.fields.attributes, top.changes[top.phase.i]));
    Logged(m.log, e);
    JustifiedMore(m.log, e);
    AttrEventCounts(m.log, m.frames, e);
  }

  lemma AttrEventCounts<V>(log: seq<Entry<V>>, frames: seq<Frame>, e: Entry<V>)
    requires frames != [] && FramesSound(frames) && CountsSound(log, frames) && e.AttrEvent?
    requires var top := frames[|frames| - 1];
             top.phase.Attrs? && top.phase.i < |top.changes| && e.name == top.changes[top.phase.i]
    ensures var after := WithTop(frames, InAttr(frames[|frames| - 1].phase.i));
            FramesSound(after) && CountsSound(log + [e], after)
  {
    var top := frames[|frames| - 1];
    var i := top.phase.i;
    Logged(log, e);
    assert top.changes[i..] == [top.changes[i]] + top.changes[i + 1..];
    forall attr
      ensures Owed(WithTop(frames, InAttr(i)), attr) + (if attr == e.name then 1 else 0) == Owed(frames, attr)
    {
      OwedTop(frames, InAttr(i), attr);
    }
  }

  lemma ChangeEventSound<V>(m: Machine<V>, idAttribute: string)
    requires Inv(m, idAttribute) && m.frames != [] && m.frames[|m.frames| - 1].phase.Loop? && m.fields.pending.Some?
    ensures Inv(Next(m), idAttribute)
  {
    var e: Entry<V> := ChangeEvent(m.fields.pending.value);
    Logged(m.log, e);
    JustifiedMore(m.log, e);
    assert CountsSound(m.log + [e], m.frames);
    MoveSound(m.log + [e], m.frames, InChange);
  }

  lemma EndSound<V>(m: Machine<V>, idAttribute: string)
    requires Inv(m, idAttribute) && UserRuns(m) && m.frames != []
    ensures Inv(End(m), idAttribute)
  {
    var top := m.frames[|m.frames| - 1];
    MoveSound(m.log, m.frames, if top.phase.InAttr? then Attrs(top.phase.i + 1) else Loop);
  }

  // ----- over whole runs

  ghost function Run<V>(m: Machine<V>, idAttribute: string, steps: seq<Step<V>>): Machine<V>
    decreases |steps|
  {
    if steps == [] || !Allowed(m, steps[0]) then m else Run(Apply(m, idAttribute, steps[0]), idAttribute, steps[1..])
  }

  /** A model fresh from the constructor. */
  function Init<V>(): Machine<V> {
    Machine(Fields(map[], map[], map[], Undefined, None, false), [], [], map[])
  }

  lemma {:induction false} RunInv<V>(m: Machine<V>, idAttribute: string, steps: seq<Step<V>>)
    requires Inv(m, idAttribute)
    ensures Inv(Run(m, idAttribute, steps), idAttribute)
    decreases |steps|
  {
    if steps != [] && Allowed(m, steps[0]) {
      match steps[0] {
        case CallSet(attrs, o) => CallSound(m, idAttribute, attrs, o);
        case Proceed => ProceedSound(m, idAttribute);
        case EndEvent => EndSound(m, idAttribute);
      }
      RunInv(Apply(m, idAttribute, steps[0]), idAttribute, steps[1..]);
    }
  }

  /** No call of the run unsets attributes with values other than undefined. */
  ghost predicate Undefining<V>(steps: seq<Step<V>>) {
    forall k :: 0 <= k < |steps| && steps[k].CallSet? ==> UnsetsUndefined(steps[k].attrs, steps[k].options.unset)
  }

  lemma CallRecorded<V>(m: Machine<V>, idAttribute: string, attrs: seq<Pair<V>>, o: SetOptions)
    requires Recorded(m.fields) && Distinct(attrs) && UnsetsUndefined(attrs, o.unset)
    ensures Recorded(Call(m, idAttribute, attrs, o).fields)
  {
    var f := m.fields;
    var changed, prev := if f.changing then f.changed else map[], if f.changing then f.prev else f.attributes;
    RecordExact(f.attributes, changed, prev, attrs, o.unset);
  }

  lemma {:induction false} RunRecorded<V>(m: Machine<V>, idAttribute: string, steps: seq<Step<V>>)
    requires Recorded(m.fields) && Undefining(steps)
    ensures Recorded(Run(m, idAttribute, steps).fields)
    decreases |steps|
  {
    if steps != [] && Allowed(m, steps[0]) {
      if steps[0].CallSet? { CallRecorded(m, idAttribute, steps[0].attrs, steps[0].options); }
      RunRecorded(Apply(m, idAttribute, steps[0]), idAttribute, steps[1..]);
    }
  }

  /** In every run, whenever user code runs inside a call, the previous attributes are those at the start of the
      outermost call, and `id` is the id attribute; and when no call unsets with defined values, `changed` is the
      difference between the attributes now and the previous ones. */
  lemma ChangedIsDifference<V>(idAttribute: string, steps: seq<Step<V>>)
    ensures var m := Run(Init<V>(), idAttribute, steps);
            && (m.frames != [] ==> m.fields.prev == m.start)
            && (m.frames != [] && Undefining(steps) ==> IsDifference(m.fields.changed, m.start, m.fields.attributes))
            && m.fields.id == Get(m.fields.attributes, idAttribute)
  {
    InitInv<V>(idAttribute);
    RunInv(Init<V>(), idAttribute, steps);
    if Undefining(steps) { RunRecorded(Init<V>(), idAttribute, steps); }
  }

  lemma InitInv<V>(idAttribute: string)
    ensures Inv(Init<V>(), idAttribute)
  {
  }

  /** In every run, when no call is running, every write that was not silent is followed by a "change" event, every
      attribute had one event for each such write, and every "change" event carried the options of the last such write
      before it. */
  lemma {:induction false} EverythingAnnounced<V>(idAttribute: string, steps: seq<Step<V>>)
    ensures var m := Run(Init<V>(), idAttribute, steps);
            && EventsJustified(m.log)
            && (m.frames == [] ==>
                  && (forall k :: 0 <= k < |m.log| && m.log[k].Wrote? && !m.log[k].options.silent ==>
                        exists j :: k < j < |m.log| && m.log[j].ChangeEvent?)
                  && forall attr :: Written(m.log, attr) == Notified(m.log, attr))
  {
    InitInv<V>(idAttribute);
    RunInv(Init<V>(), idAttribute, steps);
    AnnouncedMeaning(Run(Init<V>(), idAttribute, steps).log);
  }
}
