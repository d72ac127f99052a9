/** Backbone `Model.set`: what the handlers are told, step by step and by a whole call. */
module ModelAnnouncements {
  import opened Options
  import opened ModelChanges
  import opened ModelEvents

  // ----- one step of a run

  lemma {:induction false} RunMore<V>(m: Machine<V>, idAttribute: string, steps: seq<Step<V>>, step: Step<V>)
    ensures var before, after := Run(m, idAttribute, steps), Run(m, idAttribute, steps + [step]);
            after == before || (Allowed(before, step) && after == Apply(before, idAttribute, step))
    decreases |steps|
  {
    if steps == [] {
      assert (steps + [step])[1..] == [];
    } else if Allowed(m, steps[0]) {
      assert (steps + [step])[1..] == steps[1..] + [step];
      RunMore(Apply(m, idAttribute, steps[0]), idAttribute, steps[1..], step);
    }
  }

  /** The previous attributes are taken when an outermost call begins, and stay until the next one. */
  ghost predicate PrevKept<V>(before: Machine<V>, after: Machine<V>) {
    if before.frames == [] && after.frames != [] then after.fields.prev == before.fields.attributes
    else after.fields.prev == before.fields.prev
  }

  /** What enters the log of attribute events is the value the attribute has then. */
  ghost predicate Current<V>(before: Machine<V>, after: Machine<V>) {
    && before.log <= after.log
    && forall k :: |before.log| <= k < |after.log| && after.log[k].AttrEvent? ==>
         && after.log[k].val == Get(after.fields.attributes, after.log[k].name)
         && after.fields.attributes == before.fields.attributes
  }

  lemma StepTells<V>(m: Machine<V>, idAttribute: string, step: Step<V>)
    requires Inv(m, idAttribute) && Allowed(m, step)
    ensures Current(m, Apply(m, idAttribute, step)) && PrevKept(m, Apply(m, idAttribute, step))
    ensures !step.CallSet? ==> Apply(m, idAttribute, step).fields.attributes == m.fields.attributes
  {
  }

  /** In every run, the handlers of a "change:attr" event are told the value that the attribute has at that moment. Only
      calls change attributes, and the previous ones are those from before the outermost call. */
  lemma HandlersToldCurrent<V>(idAttribute: string, steps: seq<Step<V>>, step: Step<V>)
    ensures var before, after := Run(Init<V>(), idAttribute, steps), Run(Init<V>(), idAttribute, steps + [step]);
            && Current(before, after) && PrevKept(before, after)
            && (!step.CallSet? ==> after.fields.attributes == before.fields.attributes)
  {
    var before := Run(Init<V>(), idAttribute, steps);
    InitInv<V>(idAttribute);
    RunInv(Init<V>(), idAttribute, steps);
    RunMore(Init<V>(), idAttribute, steps, step);
    if Allowed(before, step) { StepTells(before, idAttribute, step); }
  }

  // ----- a whole call

  /** What a call tells the handlers of the attributes it changes: in the order of its input, the values passed. */
  function Announcements<V(==)>(m: Attributes<V>, attrs: seq<Pair<V>>, unset: bool): seq<Entry<V>> {
    if attrs == [] then []
    else
      var p := attrs[|attrs| - 1];
      Announcements(m, attrs[..|attrs| - 1], unset)
      + if Get(m, p.attr) != p.val then [AttrEvent(p.attr, if unset then Undefined else p.val)] else []
  }

  /** The attribute events of `changes`, with the values in `now`. */
  function Events<V>(now: Attributes<V>, changes: seq<string>): seq<Entry<V>> {
    seq(|changes|, i requires 0 <= i < |changes| => AttrEvent(changes[i], Get(now, changes[i])))
  }

  lemma {:induction false} EventsAnnounce<V>(m: Attributes<V>, attrs: seq<Pair<V>>, unset: bool, k: nat)
    requires Distinct(attrs) && k <= |attrs|
    ensures Events(AssignAll(m, attrs, unset), Changes(m, attrs[..k])) == Announcements(m, attrs[..k], unset)
  {
    if k > 0 {
      var p := attrs[k - 1];
      EventsAnnounce(m, attrs, unset, k - 1);
      assert attrs[..k][..k - 1] == attrs[..k - 1];
      Touched(m, map[], map[], attrs, unset, k - 1);
    }
  }

  /** A call without nested calls, under way: the log so far, and the events still to come. */
  ghost predicate Telling<V>(m: Machine<V>, now: Attributes<V>, changes: seq<string>, o: SetOptions,
                             base: seq<Entry<V>>)
  {
    && m.fields.attributes == now && |m.frames| == 1
    && m.frames[0].silent == o.silent && m.frames[0].changes == (if o.silent then [] else changes)
    && match m.frames[0].phase {
         case Attrs(i) =>
           && i <= |m.frames[0].changes| && m.log == base + Events(now, m.frames[0].changes[..i])
           && m.fields.pending == (if !o.silent && changes != [] then Some(o) else None)
         case InAttr(i) =>
           && i < |m.frames[0].changes| && m.log == base + Events(now, m.frames[0].changes[..i + 1])
           && m.fields.pending == (if !o.silent && changes != [] then Some(o) else None)
         case Loop =>
           && !o.silent
           && if m.fields.pending.None? then Told(m.log, now, changes, o, base)
              else changes != [] && m.fields.pending == Some(o) && m.log == base + Events(now, changes)
         case InChange => !o.silent && m.fields.pending.None? && Told(m.log, now, changes, o, base)
       }
  }

  /** All events of the call, and the "change" event if there is something to tell. */
  ghost predicate Told<V>(log: seq<Entry<V>>, now: Attributes<V>, changes: seq<string>, o: SetOptions,
                          base: seq<Entry<V>>)
  {
    log == if o.silent || changes == [] then base else base + Events(now, changes) + [ChangeEvent(o)]
  }

  lemma TellingStarts<V>(m: Machine<V>, idAttribute: string, attrs: seq<Pair<V>>, o: SetOptions)
    requires Inv(m, idAttribute) && m.frames == []
    ensures var n, changes := Call(m, idAttribute, attrs, o), Changes(m.fields.attributes, attrs);
            Telling(n, AssignAll(m.fields.attributes, attrs, o.unset), changes, o, m.log + Writes(changes, o))
  {
    var base := m.log + Writes(Changes(m.fields.attributes, attrs), o);
    assert base + [] == base;
  }

  lemma TellingProceeds<V>(m: Machine<V>, now: Attributes<V>, changes: seq<string>, o: SetOptions, base: seq<Entry<V>>)
    requires Telling(m, now, changes, o, base) && !UserRuns(m)
    ensures var n := Next(m);
            if n.frames == [] then Told(n.log, now, changes, o, base) && n.fields.attributes == now
            else Telling(n, now, changes, o, base)
  {
    var top := m.frames[0];
    if top.phase.Attrs? && top.phase.i < |top.changes| {
      var i := top.phase.i;
      assert Events(now, top.changes[..i + 1]) ==
             Events(now, top.changes[..i]) + [AttrEvent(top.changes[i], Get(now, top.changes[i]))];
    } else if top.phase.Attrs? {
      assert top.changes[..top.phase.i] == top.changes;
      assert base + [] == base;
    }
  }

  lemma TellingReturns<V>(m: Machine<V>, now: Attributes<V>, changes: seq<string>, o: SetOptions, base: seq<Entry<V>>)
    requires Telling(m, now, changes, o, base) && UserRuns(m)
    ensures Telling(End(m), now, changes, o, base)
  {
  }

  lemma {:induction false} TellingEnds<V>(m: Machine<V>, idAttribute: string, rest: seq<Step<V>>, now: Attributes<V>,
                                          changes: seq<string>, o: SetOptions, base: seq<Entry<V>>)
    requires Telling(m, now, changes, o, base)
    requires forall k :: 0 <= k < |rest| ==> !rest[k].CallSet?
    ensures var n := Run(m, idAttribute, rest);
            n.frames == [] ==> Told(n.log, now, changes, o, base) && n.fields.attributes == now
    decreases |rest|
  {
    if rest != [] && Allowed(m, rest[0]) {
      var n := Apply(m, idAttribute, rest[0]);
      if rest[0].Proceed? {
        TellingProceeds(m, now, changes, o, base);
      } else {
        TellingReturns(m, now, changes, o, base);
      }
      if n.frames == [] {
        IdleStays(n, idAttribute, rest[1..]);
      } else {
        TellingEnds(n, idAttribute, rest[1..], now, changes, o, base);
      }
    }
  }

  lemma {:induction false} IdleStays<V>(m: Machine<V>, idAttribute: string, steps: seq<Step<V>>)
    requires m.frames == [] && forall k :: 0 <= k < |steps| ==> !steps[k].CallSet?
    ensures Run(m, idAttribute, steps) == m
  {
  }

  /** A call stores the values passed, or with `unset` removes the attributes, and leaves the others alone. */
  lemma CallStores<V>(m: Machine<V>, idAttribute: string, attrs: seq<Pair<V>>, o: SetOptions, attr: string)
    requires Distinct(attrs)
    ensures var now := Call(m, idAttribute, attrs, o).fields.attributes;
            && (forall i :: 0 <= i < |attrs| ==>
                  Get(now, attrs[i].attr) == if o.unset then Undefined else attrs[i].val)
            && ((forall i :: 0 <= i < |attrs| ==> attrs[i].attr != attr) ==>
                  Get(now, attr) == Get(m.fields.attributes, attr))
  {
    forall i | 0 <= i < |attrs|
      ensures Get(AssignAll(m.fields.attributes, attrs, o.unset), attrs[i].attr) ==
              if o.unset then Undefined else attrs[i].val
    {
      Touched(m.fields.attributes, map[], map[], attrs, o.unset, i);
    }
    if forall i :: 0 <= i < |attrs| ==> attrs[i].attr != attr {
      Untouched(m.fields.attributes, map[], map[], attrs, o.unset, attr);
    }
  }

  /** A call in whose handlers nothing is set tells the handlers of each attribute it changes the value passed, in the
      order of its input, and then those of "change" that something changed; a silent call tells nobody. */
  lemma CallTells<V>(idAttribute: string, steps: seq<Step<V>>, attrs: seq<Pair<V>>, o: SetOptions, rest: seq<Step<V>>)
    requires Distinct(attrs) && forall k :: 0 <= k < |rest| ==> !rest[k].CallSet?
    ensures var m := Run(Init<V>(), idAttribute, steps);
            var n := Run(Call(m, idAttribute, attrs, o), idAttribute, rest);
            var changes := Changes(m.fields.attributes, attrs);
            m.frames == [] && n.frames == [] ==>
              n.log == m.log + Writes(changes, o)
                       + if o.silent || changes == [] then []
                         else Announcements(m.fields.attributes, attrs, o.unset) + [ChangeEvent(o)]
  {
    var m := Run(Init<V>(), idAttribute, steps);
    InitInv<V>(idAttribute);
    RunInv(Init<V>(), idAttribute, steps);
    if m.frames == [] { IdleCallTells(m, idAttribute, attrs, o, rest); }
  }

  lemma IdleCallTells<V>(m: Machine<V>, idAttribute: string, attrs: seq<Pair<V>>, o: SetOptions, rest: seq<Step<V>>)
    requires Inv(m, idAttribute) && m.frames == []
    requires Distinct(attrs) && forall k :: 0 <= k < |rest| ==> !rest[k].CallSet?
    ensures var n := Run(Call(m, idAttribute, attrs, o), idAttribute, rest);
            var changes := Changes(m.fields.attributes, attrs);
            n.frames == [] ==>
              n.log == m.log + Writes(changes, o)
                       + if o.silent || changes == [] then []
                         else Announcements(m.fields.attributes, attrs, o.unset) + [ChangeEvent(o)]
  {
    var now, changes := AssignAll(m.fields.attributes, attrs, o.unset), Changes(m.fields.attributes, attrs);
    var base := m.log + Writes(changes, o);
    TellingStarts(m, idAttribute, attrs, o);
    TellingEnds(Call(m, idAttribute, attrs, o), idAttribute, rest, now, changes, o, base);
    EventsAnnounce(m.fields.attributes, attrs, o.unset, |attrs|);
    assert attrs[..|attrs|] == attrs;
    Regroup(base, Events(now, changes), [ChangeEvent(o)]);
  }

  lemma Regroup<T>(a: seq<T>, b: seq<T>, c: seq<T>)
    ensures (a + b) + c == a + (b + c) && a + [] == a
  {
  }

  // ----- every call ends

  /** How far the call on top is from its end, once handlers set nothing more. */
  function Ahead<V>(m: Machine<V>): nat
    requires m.frames != []
  {
    var top, waiting := m.frames[|m.frames| - 1], if m.fields.pending.Some? then 2 else 0;
    match top.phase
    case Attrs(i) => if i <= |top.changes| then 5 + 2 * (|top.changes| - i) else 5
    case InAttr(i) => if i < |top.changes| then 4 + 2 * (|top.changes| - i) else 6
    case InChange => 2 + waiting
    case Loop => 1 + waiting
  }

  /** When handlers return and set nothing more, all calls end. */
  lemma {:induction false} CallEnds<V>(m: Machine<V>, idAttribute: string) returns (rest: seq<Step<V>>)
    requires FramesSound(m.frames)
    ensures (forall k :: 0 <= k < |rest| ==> !rest[k].CallSet?) && Run(m, idAttribute, rest).frames == []
    decreases |m.frames|, if m.frames == [] then 0 else Ahead(m)
  {
    rest := [];
    if m.frames != [] {
      var step: Step<V> := if UserRuns(m) then EndEvent else Proceed;
      var n := Apply(m, idAttribute, step);
      var more := CallEnds(n, idAttribute);
      rest := [step] + more;
      assert rest[1..] == more;
    }
  }

  /** So in every run: whatever is under way comes to an end. */
  lemma RunEnds<V>(idAttribute: string, steps: seq<Step<V>>) returns (rest: seq<Step<V>>)
    ensures (forall k :: 0 <= k < |rest| ==> !rest[k].CallSet?)
    ensures Run(Run(Init<V>(), idAttribute, steps), idAttribute, rest).frames == []
  {
    InitInv<V>(idAttribute);
    RunInv(Init<V>(), idAttribute, steps);
    rest := CallEnds(Run(Init<V>(), idAttribute, steps), idAttribute);
  }
}
