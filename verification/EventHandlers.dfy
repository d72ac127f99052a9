/** Backbone.Events: the lists of handlers that `on`, `listenTo`, `off` and `stopListening` leave under each name. */
module EventHandlers {
  import opened Options
  import opened EventLinks

  /** The handlers of `b` for event `n`, in order. */
  function Named(w: World, b: nat, n: string): seq<Handler> {
    NamedIn(SlotsOf(w, b), n)
  }

  function NamedIn(slots: seq<Slot>, n: string): seq<Handler> {
    if slots == [] then []
    else
      var k := |slots| - 1;
      NamedIn(slots[..k], n) + if slots[k].name == n then slots[k].handlers else []
  }

  /** `off(name, callback, context)` leaves this handler alone: it is of another event, callback or context. */
  predicate Stays(name: Option<string>, callback: Option<nat>, context: Option<nat>, n: string, h: Handler) {
    || (name.Some? && name.value != n)
    || (callback.Some? && h.callback.id != callback.value && h.callback.original != callback)
    || (context.Some? && h.context != context)
  }

  lemma NamedLast(slots: seq<Slot>, last: Slot, n: string)
    ensures NamedIn(slots + [last], n) == NamedIn(slots, n) + if last.name == n then last.handlers else []
  {
    assert (slots + [last])[..|slots|] == slots;
  }

  /** The handlers that stay, in order. */
  function Staying(name: Option<string>, callback: Option<nat>, context: Option<nat>, n: string, hs: seq<Handler>)
    : (r: seq<Handler>)
    ensures forall h :: h in r <==> h in hs && Stays(name, callback, context, n, h)
  {
    if hs == [] then []
    else
      var k := |hs| - 1;
      assert forall h :: h in hs <==> h in hs[..k] || h == hs[k];
      Staying(name, callback, context, n, hs[..k]) + if Stays(name, callback, context, n, hs[k]) then [hs[k]] else []
  }

  lemma StayingLast(name: Option<string>, callback: Option<nat>, context: Option<nat>, n: string, hs: seq<Handler>,
                    h: Handler)
    ensures Staying(name, callback, context, n, hs + [h]) ==
            Staying(name, callback, context, n, hs) + if Stays(name, callback, context, n, h) then [h] else []
  {
    assert (hs + [h])[..|hs|] == hs;
  }

  lemma Assoc(a: seq<Handler>, b: seq<Handler>, c: seq<Handler>)
    ensures a + b + c == a + (b + c)
  {
  }

  // ----- binding

  lemma {:induction false} NamedFirst(first: Slot, rest: seq<Slot>, n: string)
    ensures NamedIn([first] + rest, n) == (if first.name == n then first.handlers else []) + NamedIn(rest, n)
    decreases |rest|
  {
    if rest == [] {
      assert ([first] + rest)[..0] == [];
    } else {
      var k := |rest| - 1;
      assert [first] + rest == ([first] + rest[..k]) + [rest[k]];
      NamedLast([first] + rest[..k], rest[k], n);
      NamedFirst(first, rest[..k], n);
      Assoc(if first.name == n then first.handlers else [], NamedIn(rest[..k], n),
            if rest[k].name == n then rest[k].handlers else []);
    }
  }

  /** No name has two slots. */
  ghost predicate Unique(slots: seq<Slot>) {
    forall i, j :: 0 <= i < j < |slots| ==> slots[i].name != slots[j].name
  }

  lemma {:induction false} NamedNone(slots: seq<Slot>, n: string)
    requires forall i :: 0 <= i < |slots| ==> slots[i].name != n
    ensures NamedIn(slots, n) == []
  {
    if slots != [] { NamedNone(slots[..|slots| - 1], n); }
  }

  lemma {:induction false} BoundNamed(slots: seq<Slot>, name: string, h: Handler, n: string)
    requires Unique(slots)
    ensures NamedIn(Bound(slots, name, h), n) == NamedIn(slots, n) + if n == name then [h] else []
    decreases |slots|
  {
    if slots == [] {
      NamedFirst(Slot(name, [h]), [], n);
      assert [Slot(name, [h])] + [] == [Slot(name, [h])];
    } else {
      var first, rest := slots[0], slots[1..];
      assert [first] + rest == slots;
      NamedFirst(first, rest, n);
      if first.name == name {
        NamedFirst(first.(handlers := first.handlers + [h]), rest, n);
        if n == name { NamedNone(rest, n); }
      } else {
        BoundNamed(rest, name, h, n);
        NamedFirst(first, Bound(rest, name, h), n);
        Assoc(if first.name == n then first.handlers else [], NamedIn(rest, n), if n == name then [h] else []);
      }
    }
  }

  lemma {:induction false} BoundUnique(slots: seq<Slot>, name: string, h: Handler)
    requires Unique(slots)
    ensures Unique(Bound(slots, name, h))
    ensures forall s :: s in Bound(slots, name, h) ==> s.name == name || exists t :: t in slots && t.name == s.name
    decreases |slots|
  {
    if slots != [] && slots[0].name != name {
      BoundUnique(slots[1..], name, h);
      var more := Bound(slots[1..], name, h);
      forall j | 0 <= j < |more| ensures more[j].name != slots[0].name {
        assert more[j] in more;
      }
    }
  }

  ghost predicate AllUnique(w: World) {
    forall b :: b in w.events ==> Unique(w.events[b])
  }

  // ----- removing

  lemma {:induction false} RemainingStay(hs: seq<Handler>, name: Option<string>, q: Query, n: string)
    ensures Staying(name, q.callback, q.context, n, hs) ==
            if name.None? || name.value == n then Remaining(hs, q) else hs
  {
    if hs != [] {
      var init, last := hs[..|hs| - 1], hs[|hs| - 1];
      assert hs == init + [last];
      RemainingStay(init, name, q, n);
      StayingLast(name, q.callback, q.context, n, init, last);
      if name.None? || name.value == n {
        assert Stays(name, q.callback, q.context, n, last) <==> !Hit(q, last);
      } else {
        assert Stays(name, q.callback, q.context, n, last);
      }
    }
  }

  lemma {:induction false} StayingConcat(name: Option<string>, q: Query, n: string, a: seq<Handler>, b: seq<Handler>)
    ensures Staying(name, q.callback, q.context, n, a + b) ==
            Staying(name, q.callback, q.context, n, a) + Staying(name, q.callback, q.context, n, b)
  {
    if b == [] {
      assert a + b == a;
    } else {
      var k := |b| - 1;
      var last := if Stays(name, q.callback, q.context, n, b[k]) then [b[k]] else [];
      assert a + b == (a + b[..k]) + [b[k]];
      StayingLast(name, q.callback, q.context, n, a + b[..k], b[k]);
      StayingConcat(name, q, n, a, b[..k]);
      Assoc(Staying(name, q.callback, q.context, n, a), Staying(name, q.callback, q.context, n, b[..k]), last);
    }
  }

  lemma {:induction false} OffNamed(slots: seq<Slot>, name: Option<string>, q: Query, n: string)
    ensures NamedIn(OffSlots(slots, name, q), n) == Staying(name, q.callback, q.context, n, NamedIn(slots, n))
  {
    if slots != [] {
      var init, last := slots[..|slots| - 1], slots[|slots| - 1];
      assert slots == init + [last];
      OffNamed(init, name, q, n);
      OffSlotsLast(init, last, name, q);
      OffNamedLast(init, last, OffSlots(init, name, q), name, q, n);
    }
  }

  lemma OffSlotsLast(slots: seq<Slot>, last: Slot, name: Option<string>, q: Query)
    ensures var hs := if Concerned(name, last) then Remaining(last.handlers, q) else last.handlers;
            OffSlots(slots + [last], name, q) ==
            OffSlots(slots, name, q) + if hs == [] then [] else [last.(handlers := hs)]
  {
    assert (slots + [last])[..|slots|] == slots;
  }

  lemma OffNamedLast(slots: seq<Slot>, last: Slot, kept: seq<Slot>, name: Option<string>, q: Query, n: string)
    requires NamedIn(kept, n) == Staying(name, q.callback, q.context, n, NamedIn(slots, n))
    ensures var hs := if Concerned(name, last) then Remaining(last.handlers, q) else last.handlers;
            NamedIn(kept + (if hs == [] then [] else [last.(handlers := hs)]), n) ==
            Staying(name, q.callback, q.context, n, NamedIn(slots + [last], n))
  {
    var hs := if Concerned(name, last) then Remaining(last.handlers, q) else last.handlers;
    NamedLast(slots, last, n);
    NamedLast(kept, last.(handlers := hs), n);
    if last.name == n {
      RemainingStay(last.handlers, name, q, n);
      StayingConcat(name, q, n, NamedIn(slots, n), last.handlers);
    } else {
      assert NamedIn(slots, n) + [] == NamedIn(slots, n);
    }
    if hs == [] { assert kept + [] == kept && NamedIn(kept, n) + [] == NamedIn(kept, n); }
  }

  lemma {:induction false} OffUnique(slots: seq<Slot>, name: Option<string>, q: Query)
    requires Unique(slots)
    ensures Unique(OffSlots(slots, name, q))
    ensures forall s :: s in OffSlots(slots, name, q) ==> exists t :: t in slots && t.name == s.name
  {
    if slots != [] {
      var k := |slots| - 1;
      OffUnique(slots[..k], name, q);
      var kept := OffSlots(slots[..k], name, q);
      assert slots == slots[..k] + [slots[k]];
      forall j | 0 <= j < |kept| ensures kept[j].name != slots[k].name {
        assert kept[j] in kept;
        var t :| t in slots[..k] && t.name == kept[j].name;
      }
    }
  }

  // ----- what the calls leave

  /** `on` puts the handler at the end of the list of its name, and touches no other list. */
  lemma OnExact(w: World, b: nat, name: string, callback: Callback, context: Option<nat>, c: nat, n: string)
    requires AllUnique(w)
    ensures var w' := On(w, b, name, callback, context);
            && Named(w', c, n) ==
               Named(w, c, n) + (if c == b && n == name then [Handler(callback, context, None)] else [])
            && w' == w.(events := w'.events)
  {
    BoundNamed(SlotsOf(w, b), name, Handler(callback, context, None), n);
  }

  /** `listenTo` does the same on the other object, with the listener as context and with their record. */
  lemma ListenToExact(w: World, a: nat, b: nat, name: string, callback: Callback, c: nat, n: string)
    requires AllUnique(w) && Consistent(w)
    ensures var w' := ListenTo(w, a, b, name, callback);
            && Edge(a, b) in w'.listeningTo
            && Named(w', c, n) ==
               Named(w, c, n) + (if c == b && n == name
                                 then [Handler(callback, Some(a), Some(w'.listeningTo[Edge(a, b)]))] else [])
  {
    var r := ListenTo(w, a, b, name, callback).listeningTo[Edge(a, b)];
    BoundNamed(SlotsOf(w, b), name, Handler(callback, Some(a), Some(r)), n);
  }

  /** `off` with an argument leaves, under each name and in their order, exactly the handlers of another event, callback
      or context than asked for; without one it leaves none, and nobody listening. Other objects keep theirs. */
  lemma OffExact(w: World, b: nat, name: Option<string>, callback: Option<nat>, context: Option<nat>, c: nat, n: string)
    requires Consistent(w)
    ensures var w' := Off(w, b, name, Query(callback, context));
            && Named(w', c, n) ==
                 (if c == b then Staying(name, callback, context, n, Named(w, c, n)) else Named(w, c, n))
            && (name.None? && callback.None? && context.None? && b in w.events ==>
                  b !in w'.events && forall a: nat :: Edge(a, b) !in w'.listeningTo && Edge(a, b) !in w'.listeners)
  {
    if b in w.events { OffNamed(w.events[b], name, Query(callback, context), n); }
    if name.None? && callback.None? && context.None? { NoneStay(n, Named(w, c, n)); }
  }

  lemma NoneStay(n: string, hs: seq<Handler>)
    ensures Staying(None, None, None, n, hs) == []
  {
    if hs != [] { NoneStay(n, hs[..|hs| - 1]); }
  }

  /** The number of leading ids that `a` listens to. */
  function Heard(w: World, a: nat, ids: seq<nat>): (k: nat)
    ensures k <= |ids|
    decreases |ids|
  {
    if ids == [] || Edge(a, ids[0]) !in w.listeningTo then 0 else 1 + Heard(w, a, ids[1..])
  }

  /** `stopListening`, for all objects or one, for a name, a callback or both: up to the first object that is not
      listened to, the objects lose exactly the handlers with this listener as context that are asked for. */
  lemma {:induction false} StopListeningExact(w: World, a: nat, ids: seq<nat>, name: Option<string>,
                                              callback: Option<nat>, c: nat, n: string)
    requires Consistent(w) && forall i, j :: 0 <= i < j < |ids| ==> ids[i] != ids[j]
    ensures Named(StopListening(w, a, ids, name, callback), c, n) ==
            if c in ids[..Heard(w, a, ids)] then Staying(name, callback, Some(a), n, Named(w, c, n)) else Named(w, c, n)
    decreases |ids|
  {
    if ids != [] && Edge(a, ids[0]) in w.listeningTo {
      var b, rest := ids[0], ids[1..];
      var mid := Off(w, b, name, Query(callback, Some(a)));
      OffExact(w, b, name, callback, Some(a), c, n);
      OffConsistent(w, b, name, Query(callback, Some(a)));
      OffOtherEdges(w, b, name, Query(callback, Some(a)));
      SameHeard(w, mid, a, rest);
      StopListeningExact(mid, a, rest, name, callback, c, n);
      HeardMore(ids, Heard(w, a, rest), c);
    }
  }

  lemma HeardMore(ids: seq<nat>, k: nat, c: nat)
    requires k < |ids| && forall i, j :: 0 <= i < j < |ids| ==> ids[i] != ids[j]
    ensures c in ids[..1 + k] <==> c == ids[0] || c in ids[1..][..k]
    ensures c == ids[0] ==> c !in ids[1..][..k]
  {
    assert ids[..1 + k] == [ids[0]] + ids[1..][..k];
  }

  lemma {:induction false} SameHeard(w: World, w': World, a: nat, ids: seq<nat>)
    requires forall i :: 0 <= i < |ids| ==> (Edge(a, ids[i]) in w'.listeningTo <==> Edge(a, ids[i]) in w.listeningTo)
    ensures Heard(w', a, ids) == Heard(w, a, ids)
    decreases |ids|
  {
    if ids != [] { SameHeard(w, w', a, ids[1..]); }
  }

  /** No form of `off` touches the listeners of another object. */
  lemma OffOtherEdges(w: World, b: nat, name: Option<string>, q: Query)
    requires Consistent(w)
    ensures var w' := Off(w, b, name, q);
            forall e: Edge :: e.target != b ==> (e in w'.listeningTo <==> e in w.listeningTo)
  {
    if b in w.events {
      forall h | h in Flat(w.events[b]) ensures Linked(w, b, h) {
        assert h in LiveHandlers(w)[b];
      }
      OffBeside(w, b, w.events[b], name, q);
    }
  }

  // ----- over whole runs

  lemma OffKeepsUnique(w: World, b: nat, name: Option<string>, q: Query)
    requires AllUnique(w)
    ensures AllUnique(Off(w, b, name, q))
  {
    if b in w.events { OffUnique(w.events[b], name, q); }
    forall c | c in Off(w, b, name, q).events ensures Unique(Off(w, b, name, q).events[c]) {
      if c != b && b in w.events { OffKeepsEvents(w, b, w.events[b], name, q); }
    }
  }

  lemma {:induction false} StopKeepsUnique(w: World, a: nat, ids: seq<nat>, name: Option<string>, callback: Option<nat>)
    requires AllUnique(w)
    ensures AllUnique(StopListening(w, a, ids, name, callback))
    decreases |ids|
  {
    if ids != [] && Edge(a, ids[0]) in w.listeningTo {
      OffKeepsUnique(w, ids[0], name, Query(callback, Some(a)));
      StopKeepsUnique(Off(w, ids[0], name, Query(callback, Some(a))), a, ids[1..], name, callback);
    }
  }

  /** No table ever has two lists for a name. */
  lemma {:induction false} AlwaysUnique(ops: seq<Op>)
    ensures AllUnique(After(ops))
  {
    if ops != [] {
      AlwaysUnique(ops[..|ops| - 1]);
      var w := After(ops[..|ops| - 1]);
      match ops[|ops| - 1]
      case OnOp(b, name, callback, context) => BoundUnique(SlotsOf(w, b), name, Handler(callback, context, None));
      case ListenToOp(a, b, name, callback) =>
        var e := Edge(a, b);
        var r := ListenTo(w, a, b, name, callback).listeningTo[e];
        BoundUnique(SlotsOf(w, b), name, Handler(callback, Some(a), Some(r)));
      case OffOp(b, name, q) => OffKeepsUnique(w, b, name, q);
      case StopListeningOp(a, ids, name, callback) => StopKeepsUnique(w, a, ids, name, callback);
    }
  }
}
