/** Backbone.Events: the two-sided bookkeeping of who listens to whom. Objects and listening records go by ids. */
module EventLinks {
  import opened Options

  /** A callback; `original` is the function inside a `once` wrapper. */
  datatype Callback = Callback(id: nat, original: Option<nat>)

  /** A handler of an event; `listening` is the record it was bound with by `listenTo`. */
  datatype Handler = Handler(callback: Callback, context: Option<nat>, listening: Option<nat>)

  /** The handlers of one event name; `_events` has its names in the order of their creation. */
  datatype Slot = Slot(name: string, handlers: seq<Handler>)

  datatype Record = Record(owner: nat, target: nat, count: int)

  datatype Edge = Edge(listener: nat, target: nat)

  /** All `_events`, `_listeners` and `_listeningTo` tables, and the records in them. An object without an entry in
      `events` has `_events` undefined. `listeners` holds `target._listeners[listener]` and `listeningTo` holds
      `listener._listeningTo[target]`. */
  datatype World = World(events: map<nat, seq<Slot>>, listeners: map<Edge, nat>, listeningTo: map<Edge, nat>,
                         records: map<nat, Record>, next: nat)

  /** What `off` is asked to remove. */
  datatype Query = Query(callback: Option<nat>, context: Option<nat>)

  const EMPTY := World(map[], map[], map[], map[], 0)

  function SlotsOf(w: World, b: nat): seq<Slot> {
    if b in w.events then w.events[b] else []
  }

  // ----- binding

  function Bound(slots: seq<Slot>, name: string, h: Handler): seq<Slot> {
    if slots == [] then [Slot(name, [h])]
    else if slots[0].name == name then [slots[0].(handlers := slots[0].handlers + [h])] + slots[1..]
    else [slots[0]] + Bound(slots[1..], name, h)
  }

  /** `on` */
  function On(w: World, b: nat, name: string, callback: Callback, context: Option<nat>): World {
    w.(events := w.events[b := Bound(SlotsOf(w, b), name, Handler(callback, context, None))])
  }

  /** The count of the record in the tables for `e`, if there is one. */
  function CountOf(w: World, e: Edge): int {
    if e in w.listeningTo && w.listeningTo[e] in w.records then w.records[w.listeningTo[e]].count else 0
  }

  /** `listenTo` */
  function ListenTo(w: World, a: nat, b: nat, name: string, callback: Callback): World {
    var e := Edge(a, b);
    var known := e in w.listeningTo && w.listeningTo[e] in w.records;
    var r := if known then w.listeningTo[e] else w.next;
    World(w.events[b := Bound(SlotsOf(w, b), name, Handler(callback, Some(a), Some(r)))],
          w.listeners[e := r], w.listeningTo[e := r],
          w.records[r := Record(a, b, CountOf(w, e) + 1)], if known then w.next else w.next + 1)
  }

  // ----- removing

  predicate Hit(q: Query, h: Handler) {
    && (q.callback.Some? ==> q.callback.value == h.callback.id || q.callback == h.callback.original)
    && (q.context.Some? ==> q.context == h.context)
  }

  /** One handler of `b` goes: its record counts one handler less, and disappears with the last. */
  function Dropped(w: World, b: nat, h: Handler): World {
    if h.listening.None? || h.listening.value !in w.records then w
    else
      var r := h.listening.value;
      var rec := w.records[r];
      var left := w.(records := w.records[r := rec.(count := rec.count - 1)]);
      if rec.count - 1 == 0 then
        left.(listeners := left.listeners - {Edge(rec.owner, b)},
              listeningTo := left.listeningTo - {Edge(rec.owner, rec.target)})
      else left
  }

  function DroppedAll(w: World, b: nat, hs: seq<Handler>, q: Query): World {
    if hs == [] then w
    else
      var n := |hs| - 1;
      var before := DroppedAll(w, b, hs[..n], q);
      if Hit(q, hs[n]) then Dropped(before, b, hs[n]) else before
  }

  function Remaining(hs: seq<Handler>, q: Query): seq<Handler> {
    if hs == [] then []
    else
      var n := |hs| - 1;
      Remaining(hs[..n], q) + if Hit(q, hs[n]) then [] else [hs[n]]
  }

  predicate Concerned(name: Option<string>, slot: Slot) {
    name.None? || name.value == slot.name
  }

  /** The counts and tables after the handlers of the first slots have been gone through. */
  function OffRecords(w: World, b: nat, slots: seq<Slot>, name: Option<string>, q: Query): World {
    if slots == [] then w
    else
      var n := |slots| - 1;
      var before := OffRecords(w, b, slots[..n], name, q);
      if Concerned(name, slots[n]) then DroppedAll(before, b, slots[n].handlers, q) else before
  }

  /** The slots that are left; names without handlers are deleted. */
  function OffSlots(slots: seq<Slot>, name: Option<string>, q: Query): seq<Slot> {
    if slots == [] then []
    else
      var n := |slots| - 1;
      var hs := if Concerned(name, slots[n]) then Remaining(slots[n].handlers, q) else slots[n].handlers;
      OffSlots(slots[..n], name, q) + if hs == [] then [] else [slots[n].(handlers := hs)]
  }

  /** `off` without arguments: all listeners of `b` are cut off. */
  function OffAll(w: World, b: nat): World {
    w.(events := w.events - {b},
       listeners := map e | e in w.listeners && e.target != b :: w.listeners[e],
       listeningTo := map e | e in w.listeningTo && !(e.target == b && e in w.listeners) :: w.listeningTo[e])
  }

  function Off(w: World, b: nat, name: Option<string>, q: Query): World {
    if b !in w.events then w
    else if name.None? && q.callback.None? && q.context.None? then OffAll(w, b)
    else
      OffRecords(w, b, w.events[b], name, q).(events := w.events[b := OffSlots(w.events[b], name, q)])
  }

  /** `stopListening`, over the ids of the objects concerned. */
  function StopListening(w: World, a: nat, ids: seq<nat>, name: Option<string>, callback: Option<nat>): World
    decreases |ids|
  {
    if ids == [] || Edge(a, ids[0]) !in w.listeningTo then w
    else StopListening(Off(w, ids[0], name, Query(callback, Some(a))), a, ids[1..], name, callback)
  }

  // ----- the invariant

  /** All handlers of an object. */
  function Flat(slots: seq<Slot>): seq<Handler> {
    if slots == [] then [] else Flat(slots[..|slots| - 1]) + slots[|slots| - 1].handlers
  }

  /** The number of handlers that carry record `r`. */
  function CountIn(hs: seq<Handler>, r: nat): nat {
    if hs == [] then 0
    else
      var n := |hs| - 1;
      CountIn(hs[..n], r) + if hs[n].listening == Some(r) then 1 else 0
  }

  type Live = map<nat, seq<Handler>>

  ghost function LiveHandlers(w: World): Live {
    map b | b in w.events :: Flat(w.events[b])
  }

  ghost function LiveOf(live: Live, b: nat): seq<Handler> {
    if b in live then live[b] else []
  }

  /** A record is in both tables of its two objects, and says so. */
  ghost predicate TablesAgree(w: World) {
    && w.listeners == w.listeningTo
    && (forall e :: e in w.listeningTo ==>
          var r := w.listeningTo[e];
          r in w.records && w.records[r].owner == e.listener && w.records[r].target == e.target)
    && (forall r :: r in w.records ==> r < w.next)
  }

  /** Record `r` is the one the tables hold for its two objects. */
  ghost predicate Current(w: World, r: nat) {
    && r in w.records
    && Edge(w.records[r].owner, w.records[r].target) in w.listeningTo
    && w.listeningTo[Edge(w.records[r].owner, w.records[r].target)] == r
  }

  /** A handler of `b` bound with a record carries the current record of its context and `b`. */
  ghost predicate Linked(w: World, b: nat, h: Handler) {
    h.listening.Some? ==>
      Current(w, h.listening.value) && w.records[h.listening.value].target == b
      && h.context == Some(w.records[h.listening.value].owner)
  }

  /** The count of the record in the tables for `e` is positive and right. */
  ghost predicate Counts(w: World, live: Live, e: Edge)
    requires e in w.listeningTo
  {
    var r := w.listeningTo[e];
    r in w.records && w.records[r].count == CountIn(LiveOf(live, e.target), r) > 0
  }

  /** The tables of `w` are right about the handlers `live`. */
  ghost predicate Balanced(w: World, live: Live) {
    && TablesAgree(w)
    && (forall b, h :: b in live && h in live[b] ==> Linked(w, b, h))
    && (forall e :: e in w.listeningTo ==> Counts(w, live, e))
  }

  /** The bookkeeping invariant: "A listens to B" is recorded on both sides or on neither, and its count is the
      positive number of handlers on B that carry the record. */
  ghost predicate Consistent(w: World) {
    Balanced(w, LiveHandlers(w))
  }

  // ----- counting

  lemma {:induction false} CountConcat(a: seq<Handler>, b: seq<Handler>, r: nat)
    ensures CountIn(a + b, r) == CountIn(a, r) + CountIn(b, r)
  {
    if b == [] {
      assert a + b == a;
    } else {
      var n := |b| - 1;
      assert (a + b)[..|a + b| - 1] == a + b[..n];
      CountConcat(a, b[..n], r);
    }
  }

  lemma CountAround(a: seq<Handler>, h: Handler, b: seq<Handler>, r: nat)
    ensures CountIn(a + [h] + b, r) == CountIn(a + b, r) + if h.listening == Some(r) then 1 else 0
  {
    CountConcat(a + [h], b, r);
    CountConcat(a, [h], r);
    CountConcat(a, b, r);
    assert [h][..0] == [];
  }

  lemma {:induction false} CountedCarried(hs: seq<Handler>, r: nat)
    requires CountIn(hs, r) == 0
    ensures forall h :: h in hs ==> h.listening != Some(r)
  {
    if hs != [] {
      var n := |hs| - 1;
      CountedCarried(hs[..n], r);
      assert hs == hs[..n] + [hs[n]];
    }
  }

  // ----- one handler more, one handler less

  /** `b` gets a handler `h`, carrying no record or the record that the tables get for it. */
  lemma BindPlain(w: World, live: Live, b: nat, a: seq<Handler>, h: Handler, c: seq<Handler>)
    requires Balanced(w, live) && LiveOf(live, b) == a + c && h.listening.None?
    ensures Balanced(w, live[b := a + [h] + c])
  {
    var more := live[b := a + [h] + c];
    forall e | e in w.listeningTo ensures Counts(w, more, e) {
      assert Counts(w, live, e);
      CountAround(a, h, c, w.listeningTo[e]);
    }
    assert forall g :: g in a + [h] + c ==> g == h || g in a + c;
  }

  /** The world after `listenTo` has counted its new handler. */
  ghost predicate Counted(w: World, w': World, e: Edge, r: nat) {
    && r == (if e in w.listeningTo then w.listeningTo[e] else w.next)
    && (e in w.listeningTo ==> r in w.records)
    && w'.listeners == w.listeners[e := r] && w'.listeningTo == w.listeningTo[e := r]
    && w'.records == w.records[r := Record(e.listener, e.target, CountOf(w, e) + 1)]
    && w'.next == if e in w.listeningTo then w.next else w.next + 1
  }

  lemma BindLinked(w: World, live: Live, e: Edge, a: seq<Handler>, h: Handler, c: seq<Handler>, w': World)
    requires Balanced(w, live) && LiveOf(live, e.target) == a + c
    requires h.context == Some(e.listener) && h.listening.Some? && Counted(w, w', e, h.listening.value)
    ensures Balanced(w', live[e.target := a + [h] + c])
  {
    BindTables(w, e, h.listening.value, w');
    var more := live[e.target := a + [h] + c];
    forall f | f in w'.listeningTo ensures Counts(w', more, f) {
      BindCounts(w, live, e, a, h, c, w', f);
    }
    forall d, g | d in more && g in more[d] ensures Linked(w', d, g) {
      BindLinks(w, live, e, a, h, c, w', d, g);
    }
  }

  lemma BindTables(w: World, e: Edge, r: nat, w': World)
    requires TablesAgree(w) && Counted(w, w', e, r)
    ensures TablesAgree(w')
  {
  }

  lemma BindCounts(w: World, live: Live, e: Edge, a: seq<Handler>, h: Handler, c: seq<Handler>, w': World, f: Edge)
    requires Balanced(w, live) && LiveOf(live, e.target) == a + c && f in w'.listeningTo
    requires h.listening.Some? && Counted(w, w', e, h.listening.value)
    ensures Counts(w', live[e.target := a + [h] + c], f)
  {
    CountAround(a, h, c, w'.listeningTo[f]);
    if f != e {
      assert Counts(w, live, f);
    } else if e in w.listeningTo {
      assert Counts(w, live, e);
    } else {
      Uncarried(w, live, e.target, h.listening.value);
    }
  }

  lemma BindLinks(w: World, live: Live, e: Edge, a: seq<Handler>, h: Handler, c: seq<Handler>, w': World, d: nat,
                  g: Handler)
    requires Balanced(w, live) && LiveOf(live, e.target) == a + c
    requires h.context == Some(e.listener) && h.listening.Some? && Counted(w, w', e, h.listening.value)
    requires if d == e.target then g in a + [h] + c else d in live && g in live[d]
    ensures Linked(w', d, g)
  {
    if d == e.target && g == h {
      assert Current(w', h.listening.value);
    } else {
      assert d in live && g in live[d] && Linked(w, d, g);
      if g.listening.Some? { CurrentStays(w, w', e, h.listening.value, g.listening.value); }
    }
  }

  lemma Uncarried(w: World, live: Live, b: nat, r: nat)
    requires Balanced(w, live) && r !in w.records
    ensures CountIn(LiveOf(live, b), r) == 0
  {
    NoneCarries(LiveOf(live, b), r);
  }

  lemma {:induction false} NoneCarries(hs: seq<Handler>, r: nat)
    ensures (forall h :: h in hs ==> h.listening != Some(r)) ==> CountIn(hs, r) == 0
  {
    if hs != [] { NoneCarries(hs[..|hs| - 1], r); }
  }

  lemma CurrentStays(w: World, w': World, e: Edge, r: nat, s: nat)
    requires TablesAgree(w) && Current(w, s) && Counted(w, w', e, r)
    ensures Current(w', s) && w'.records[s].owner == w.records[s].owner && w'.records[s].target == w.records[s].target
  {
  }

  /** A handler of `b` goes. */
  lemma DropOne(w: World, live: Live, b: nat, a: seq<Handler>, h: Handler, c: seq<Handler>)
    requires Balanced(w, live[b := a + [h] + c])
    ensures Balanced(Dropped(w, b, h), live[b := a + c])
  {
    var w', was, now := Dropped(w, b, h), live[b := a + [h] + c], live[b := a + c];
    assert h in was[b] && Linked(w, b, h);
    forall e | e in w'.listeningTo ensures Counts(w', now, e) {
      DropCounts(w, live, b, a, h, c, e);
    }
    forall d, g | d in now && g in now[d] ensures Linked(w', d, g) {
      assert d in was && g in was[d] && Linked(w, d, g);
      if h.listening.Some? {
        assert Counts(w, was, Edge(w.records[h.listening.value].owner, b));
        DropLinks(w, b, a, h, c, d, g);
      }
    }
    DropTables(w, b, h);
  }

  lemma DropTables(w: World, b: nat, h: Handler)
    requires TablesAgree(w) && Linked(w, b, h)
    ensures TablesAgree(Dropped(w, b, h))
  {
  }

  lemma DropCounts(w: World, live: Live, b: nat, a: seq<Handler>, h: Handler, c: seq<Handler>, e: Edge)
    requires Balanced(w, live[b := a + [h] + c]) && e in Dropped(w, b, h).listeningTo
    ensures Counts(Dropped(w, b, h), live[b := a + c], e)
  {
    var was := live[b := a + [h] + c];
    assert h in was[b] && Linked(w, b, h);
    assert e in w.listeningTo && Counts(w, was, e);
    CountAround(a, h, c, w.listeningTo[e]);
  }

  lemma DropLinks(w: World, b: nat, a: seq<Handler>, h: Handler, c: seq<Handler>, d: nat, g: Handler)
    requires TablesAgree(w) && h.listening.Some? && Linked(w, b, h) && Linked(w, d, g)
    requires w.records[h.listening.value].count == CountIn(a + [h] + c, h.listening.value)
    requires d == b ==> g in a + c
    ensures Linked(Dropped(w, b, h), d, g)
  {
    var r := h.listening.value;
    CountAround(a, h, c, r);
    if w.records[r].count == 1 { CountedCarried(a + c, r); }
  }

  // ----- the operations

  lemma {:induction false} DropMany(w: World, live: Live, b: nat, a: seq<Handler>, hs: seq<Handler>, q: Query,
                                    c: seq<Handler>)
    requires Balanced(w, live[b := a + hs + c])
    ensures Balanced(DroppedAll(w, b, hs, q), live[b := a + Remaining(hs, q) + c])
    decreases |hs|
  {
    if hs != [] {
      var n := |hs| - 1;
      var h, kept := hs[n], Remaining(hs[..n], q);
      assert a + hs + c == a + hs[..n] + ([h] + c);
      DropMany(w, live, b, a, hs[..n], q, [h] + c);
      var mid := DroppedAll(w, b, hs[..n], q);
      assert a + kept + ([h] + c) == (a + kept) + [h] + c;
      if Hit(q, h) {
        DropOne(mid, live, b, a + kept, h, c);
        assert Remaining(hs, q) == kept;
      } else {
        assert (a + kept) + [h] + c == a + (kept + [h]) + c;
      }
    }
  }

  lemma FlatPushed(slots: seq<Slot>, last: Slot, c: seq<Handler>)
    ensures Flat(slots + [last]) + c == Flat(slots) + last.handlers + c == Flat(slots) + (last.handlers + c)
  {
  }

  lemma {:induction false} OffBalanced(w: World, live: Live, b: nat, slots: seq<Slot>, name: Option<string>, q: Query,
                                       c: seq<Handler>)
    requires Balanced(w, live[b := Flat(slots) + c])
    ensures Balanced(OffRecords(w, b, slots, name, q), live[b := Flat(OffSlots(slots, name, q)) + c])
    decreases |slots|
  {
    if slots != [] {
      var n := |slots| - 1;
      var init, hs := slots[..n], slots[n].handlers;
      FlatPushed(init, slots[n], c);
      assert init + [slots[n]] == slots;
      OffBalanced(w, live, b, init, name, q, hs + c);
      OffLast(OffRecords(w, b, init, name, q), live, b, OffSlots(init, name, q), slots[n], name, q, c);
    }
  }

  /** The last slot of an `off`. */
  lemma OffLast(mid: World, live: Live, b: nat, kept: seq<Slot>, last: Slot, name: Option<string>, q: Query,
                c: seq<Handler>)
    requires Balanced(mid, live[b := Flat(kept) + (last.handlers + c)])
    ensures var left := if Concerned(name, last) then Remaining(last.handlers, q) else last.handlers;
            Balanced(if Concerned(name, last) then DroppedAll(mid, b, last.handlers, q) else mid,
                     live[b := Flat(kept + if left == [] then [] else [last.(handlers := left)]) + c])
  {
    var left := if Concerned(name, last) then Remaining(last.handlers, q) else last.handlers;
    FlatPushed(kept, last, c);
    FlatPushed(kept, last.(handlers := left), c);
    if Concerned(name, last) { DropMany(mid, live, b, Flat(kept), last.handlers, q, c); }
    if left == [] {
      assert kept + [] == kept;
      assert Flat(kept) + left + c == Flat(kept) + c;
    }
  }

  lemma OffAllBalanced(w: World, live: Live, b: nat)
    requires Balanced(w, live)
    ensures Balanced(OffAll(w, b), live - {b})
  {
  }

  lemma {:induction false} BoundFlat(slots: seq<Slot>, name: string, h: Handler)
    returns (a: seq<Handler>, c: seq<Handler>)
    ensures Flat(slots) == a + c && Flat(Bound(slots, name, h)) == a + [h] + c
    decreases |slots|
  {
    if slots == [] {
      a, c := [], [];
      assert [Slot(name, [h])][..0] == [];
    } else {
      var first, rest := slots[0], slots[1..];
      FlatFirst(first, rest);
      assert [first] + rest == slots;
      if first.name == name {
        a, c := first.handlers, Flat(rest);
        FlatFirst(first.(handlers := first.handlers + [h]), rest);
      } else {
        var x, y := BoundFlat(rest, name, h);
        FlatFirst(first, Bound(rest, name, h));
        Regroup(first.handlers, x, h, y);
        a, c := first.handlers + x, y;
      }
    }
  }

  lemma Regroup(p: seq<Handler>, a: seq<Handler>, h: Handler, c: seq<Handler>)
    ensures p + (a + c) == (p + a) + c && p + (a + [h] + c) == (p + a) + [h] + c
  {
  }

  lemma {:induction false} FlatFirst(first: Slot, rest: seq<Slot>)
    ensures Flat([first] + rest) == first.handlers + Flat(rest)
    decreases |rest|
  {
    if rest == [] {
      assert [first] + rest == [first] && [first][..0] == [];
    } else {
      var n := |rest| - 1;
      var all := [first] + rest;
      assert all[..n + 1] == [first] + rest[..n] && all[n + 1] == rest[n];
      FlatFirst(first, rest[..n]);
      assert Flat(all) == (first.handlers + Flat(rest[..n])) + rest[n].handlers;
    }
  }

  /** `on` keeps the invariant. */
  lemma OnConsistent(w: World, b: nat, name: string, callback: Callback, context: Option<nat>)
    requires Consistent(w)
    ensures Consistent(On(w, b, name, callback, context))
  {
    var h, w' := Handler(callback, context, None), On(w, b, name, callback, context);
    var a, c := BoundFlat(SlotsOf(w, b), name, h);
    LiveBound(w, w', b, name, h, a, c);
    BindPlain(w, LiveHandlers(w), b, a, h, c);
    SameTables(w, w', LiveHandlers(w'));
  }

  lemma SameTables(w: World, w': World, live: Live)
    requires Balanced(w, live)
    requires w' == w.(events := w'.events)
    ensures Balanced(w', live)
  {
  }

  lemma ListenToCounted(w: World, a: nat, b: nat, name: string, callback: Callback)
    requires Consistent(w)
    ensures var e, w' := Edge(a, b), ListenTo(w, a, b, name, callback);
            e in w'.listeningTo && Counted(w, w', e, w'.listeningTo[e])
  {
  }

  lemma LiveBound(w: World, w': World, b: nat, name: string, h: Handler, a: seq<Handler>, c: seq<Handler>)
    requires w'.events == w.events[b := Bound(SlotsOf(w, b), name, h)]
    requires Flat(Bound(SlotsOf(w, b), name, h)) == a + [h] + c
    ensures LiveHandlers(w') == LiveHandlers(w)[b := a + [h] + c]
    ensures LiveOf(LiveHandlers(w), b) == Flat(SlotsOf(w, b))
  {
  }

  /** `listenTo` keeps the invariant. */
  lemma ListenToConsistent(w: World, a: nat, b: nat, name: string, callback: Callback)
    requires Consistent(w)
    ensures Consistent(ListenTo(w, a, b, name, callback))
  {
    var e, w' := Edge(a, b), ListenTo(w, a, b, name, callback);
    ListenToCounted(w, a, b, name, callback);
    var h := Handler(callback, Some(a), Some(w'.listeningTo[e]));
    var x, y := BoundFlat(SlotsOf(w, b), name, h);
    LiveBound(w, w', b, name, h, x, y);
    BindLinked(w, LiveHandlers(w), e, x, h, y, w');
  }

  /** `off` keeps the invariant, whatever it is asked to remove. */
  lemma OffConsistent(w: World, b: nat, name: Option<string>, q: Query)
    requires Consistent(w)
    ensures Consistent(Off(w, b, name, q))
  {
    if b in w.events {
      var w' := Off(w, b, name, q);
      if name.None? && q.callback.None? && q.context.None? {
        OffAllBalanced(w, LiveHandlers(w), b);
        assert LiveHandlers(w') == LiveHandlers(w) - {b};
      } else {
        OffSomeConsistent(w, b, name, q);
      }
    }
  }

  lemma OffSomeConsistent(w: World, b: nat, name: Option<string>, q: Query)
    requires Consistent(w) && b in w.events
    ensures Consistent(OffRecords(w, b, w.events[b], name, q).(events := w.events[b := OffSlots(w.events[b], name, q)]))
  {
    var slots := w.events[b];
    var left := OffSlots(slots, name, q);
    var mid := OffRecords(w, b, slots, name, q);
    assert Flat(slots) + [] == Flat(slots) && Flat(left) + [] == Flat(left);
    assert LiveHandlers(w)[b := Flat(slots)] == LiveHandlers(w);
    OffBalanced(w, LiveHandlers(w), b, slots, name, q, []);
    var w' := mid.(events := w.events[b := left]);
    assert LiveHandlers(w') == LiveHandlers(w)[b := Flat(left)];
    SameTables(mid, w', LiveHandlers(w'));
  }

  lemma {:induction false} OffKeepsEvents(w: World, b: nat, slots: seq<Slot>, name: Option<string>, q: Query)
    ensures OffRecords(w, b, slots, name, q).events == w.events
  {
    if slots != [] {
      var n := |slots| - 1;
      OffKeepsEvents(w, b, slots[..n], name, q);
      DropsKeepEvents(OffRecords(w, b, slots[..n], name, q), b, slots[n].handlers, q);
    }
  }

  lemma {:induction false} DropsKeepEvents(w: World, b: nat, hs: seq<Handler>, q: Query)
    ensures DroppedAll(w, b, hs, q).events == w.events
  {
    if hs != [] { DropsKeepEvents(w, b, hs[..|hs| - 1], q); }
  }

  /** `stopListening` keeps the invariant. */
  lemma {:induction false} StopListeningConsistent(w: World, a: nat, ids: seq<nat>, name: Option<string>,
                                                   callback: Option<nat>)
    requires Consistent(w)
    ensures Consistent(StopListening(w, a, ids, name, callback))
    decreases |ids|
  {
    if ids != [] && Edge(a, ids[0]) in w.listeningTo {
      OffConsistent(w, ids[0], name, Query(callback, Some(a)));
      StopListeningConsistent(Off(w, ids[0], name, Query(callback, Some(a))), a, ids[1..], name, callback);
    }
  }

  // ----- what `stopListening` leaves

  /** No handler of `b` has context `a`. */
  ghost predicate Unheard(w: World, a: nat, b: nat) {
    forall h :: h in Flat(SlotsOf(w, b)) ==> h.context != Some(a)
  }

  lemma {:induction false} RemainingMissed(hs: seq<Handler>, q: Query)
    ensures forall h :: h in Remaining(hs, q) <==> h in hs && !Hit(q, h)
  {
    if hs != [] {
      var n := |hs| - 1;
      RemainingMissed(hs[..n], q);
      assert hs == hs[..n] + [hs[n]];
    }
  }

  /** A handler is bound to a name. */
  ghost predicate BoundTo(slots: seq<Slot>, name: string, h: Handler) {
    exists i :: 0 <= i < |slots| && slots[i].name == name && h in slots[i].handlers
  }

  /** The handlers left by `off` are exactly those of other names, those with another callback than the one asked for,
      and those with another context, under their names. */
  lemma {:induction false} OffSlotsMissed(slots: seq<Slot>, name: Option<string>, q: Query, n: string, h: Handler)
    ensures BoundTo(OffSlots(slots, name, q), n, h) <==>
            && BoundTo(slots, n, h)
            && (|| (name.Some? && name.value != n)
                || (q.callback.Some? && q.callback.value != h.callback.id && q.callback != h.callback.original)
                || (q.context.Some? && q.context != h.context))
  {
    if slots != [] {
      var k := |slots| - 1;
      var last := slots[k];
      var left := if Concerned(name, last) then Remaining(last.handlers, q) else last.handlers;
      OffSlotsMissed(slots[..k], name, q, n, h);
      RemainingMissed(last.handlers, q);
      BoundToLast(slots[..k], last, n, h);
      assert slots == slots[..k] + [last];
      if left == [] {
        assert OffSlots(slots, name, q) == OffSlots(slots[..k], name, q);
      } else {
        BoundToLast(OffSlots(slots[..k], name, q), last.(handlers := left), n, h);
      }
    }
  }

  lemma BoundToLast(slots: seq<Slot>, last: Slot, n: string, h: Handler)
    ensures BoundTo(slots + [last], n, h) <==> BoundTo(slots, n, h) || (last.name == n && h in last.handlers)
  {
    if BoundTo(slots, n, h) {
      var i :| 0 <= i < |slots| && slots[i].name == n && h in slots[i].handlers;
      assert (slots + [last])[i] == slots[i];
    }
    assert (slots + [last])[|slots|] == last;
  }

  /** Every handler is bound to some name. */
  lemma {:induction false} FlatBound(slots: seq<Slot>, h: Handler) returns (n: string)
    requires h in Flat(slots)
    ensures BoundTo(slots, n, h)
  {
    var k := |slots| - 1;
    assert slots == slots[..k] + [slots[k]];
    if h in slots[k].handlers {
      n := slots[k].name;
    } else {
      n := FlatBound(slots[..k], h);
    }
    BoundToLast(slots[..k], slots[k], n, h);
  }

  /** An `off` by context cuts the context off from `b`, and touches no other edge of the tables. */
  lemma OffContext(w: World, a: nat, b: nat)
    requires Consistent(w)
    ensures var w' := Off(w, b, None, Query(None, Some(a)));
            && Unheard(w', a, b) && Edge(a, b) !in w'.listeningTo
            && (forall c: nat :: c != b ==> SlotsOf(w', c) == SlotsOf(w, c))
            && (forall e: Edge :: e.target != b ==> (e in w'.listeningTo <==> e in w.listeningTo))
  {
    var q := Query(None, Some(a));
    var w' := Off(w, b, None, q);
    OffConsistent(w, b, None, q);
    forall h | h in Flat(SlotsOf(w', b)) ensures h.context != Some(a) {
      var n := FlatBound(SlotsOf(w', b), h);
      OffSlotsMissed(SlotsOf(w, b), None, q, n, h);
    }
    if b in w.events {
      forall h | h in Flat(w.events[b]) ensures Linked(w, b, h) {
        assert h in LiveHandlers(w)[b];
      }
      OffBeside(w, b, w.events[b], None, q);
    }
    assert Flat(SlotsOf(w', b)) == LiveOf(LiveHandlers(w'), b);
    assert Unheard(w', a, b);
    if Edge(a, b) in w'.listeningTo {
      assert Counts(w', LiveHandlers(w'), Edge(a, b));
      var r := w'.listeningTo[Edge(a, b)];
      forall h | h in Flat(SlotsOf(w', b)) ensures h.listening != Some(r) {
        assert b in LiveHandlers(w') && Linked(w', b, h);
      }
      NoneCarries(Flat(SlotsOf(w', b)), r);
    }
  }

  /** The records of these handlers, if any, are of target `b`. */
  ghost predicate Targets(w: World, b: nat, hs: seq<Handler>) {
    forall h :: h in hs && h.listening.Some? && h.listening.value in w.records ==>
        w.records[h.listening.value].target == b
  }

  /** Only edges to `b` may have gone, and records only changed their counts. */
  ghost predicate Beside(w: World, w': World, b: nat) {
    && (forall e: Edge :: e.target != b ==> (e in w'.listeningTo <==> e in w.listeningTo))
    && w'.records.Keys == w.records.Keys
    && forall r :: r in w.records ==> w'.records[r].target == w.records[r].target
  }

  lemma {:induction false} DropsBeside(w: World, b: nat, hs: seq<Handler>, q: Query)
    requires Targets(w, b, hs)
    ensures Beside(w, DroppedAll(w, b, hs, q), b)
  {
    if hs != [] {
      var n := |hs| - 1;
      assert hs == hs[..n] + [hs[n]];
      DropsBeside(w, b, hs[..n], q);
      assert hs[n] in hs;
    }
  }

  lemma {:induction false} OffBeside(w: World, b: nat, slots: seq<Slot>, name: Option<string>, q: Query)
    requires Targets(w, b, Flat(slots))
    ensures Beside(w, OffRecords(w, b, slots, name, q), b)
  {
    if slots != [] {
      var n := |slots| - 1;
      assert forall h :: h in Flat(slots[..n]) || h in slots[n].handlers ==> h in Flat(slots);
      OffBeside(w, b, slots[..n], name, q);
      var mid := OffRecords(w, b, slots[..n], name, q);
      if Concerned(name, slots[n]) { DropsBeside(mid, b, slots[n].handlers, q); }
    }
  }

  /** After `stopListening()` with all its ids, an object has no records, and nothing it listened to still holds a
      handler with it as context. */
  lemma {:induction false} StopListeningSilences(w: World, a: nat, ids: seq<nat>)
    requires Consistent(w)
    requires forall i, j :: 0 <= i < j < |ids| ==> ids[i] != ids[j]
    requires forall b: nat :: b in ids <==> Edge(a, b) in w.listeningTo
    ensures var w' := StopListening(w, a, ids, None, None);
            && (forall b: nat :: Edge(a, b) !in w'.listeningTo && Edge(a, b) !in w'.listeners)
            && (forall b :: b in ids ==> Unheard(w', a, b))
            && (forall c: nat :: c !in ids ==> SlotsOf(w', c) == SlotsOf(w, c))
    decreases |ids|
  {
    StopListeningConsistent(w, a, ids, None, None);
    if ids == [] {
    } else {
      var b, rest := ids[0], ids[1..];
      assert b in ids;
      var mid := Off(w, b, None, Query(None, Some(a)));
      OffContext(w, a, b);
      OffConsistent(w, b, None, Query(None, Some(a)));
      assert forall c: nat :: c in rest <==> c in ids && c != b;
      StopListeningSilences(mid, a, rest);
    }
  }

  // ----- whole runs

  datatype Op =
    | OnOp(b: nat, name: string, callback: Callback, context: Option<nat>)
    | ListenToOp(a: nat, b: nat, name: string, callback: Callback)
    | OffOp(b: nat, only: Option<string>, q: Query)
    | StopListeningOp(a: nat, ids: seq<nat>, only: Option<string>, function': Option<nat>)

  function Step(w: World, op: Op): World {
    match op
    case OnOp(b, name, callback, context) => On(w, b, name, callback, context)
    case ListenToOp(a, b, name, callback) => ListenTo(w, a, b, name, callback)
    case OffOp(b, name, q) => Off(w, b, name, q)
    case StopListeningOp(a, ids, name, callback) => StopListening(w, a, ids, name, callback)
  }

  function After(ops: seq<Op>): World {
    if ops == [] then EMPTY else Step(After(ops[..|ops| - 1]), ops[|ops| - 1])
  }

  /** The bookkeeping is right after any sequence of calls on any objects. */
  lemma {:induction false} AlwaysConsistent(ops: seq<Op>)
    ensures Consistent(After(ops))
  {
    if ops != [] {
      AlwaysConsistent(ops[..|ops| - 1]);
      var w := After(ops[..|ops| - 1]);
      match ops[|ops| - 1]
      case OnOp(b, name, callback, context) => OnConsistent(w, b, name, callback, context);
      case ListenToOp(a, b, name, callback) => ListenToConsistent(w, a, b, name, callback);
      case OffOp(b, name, q) => OffConsistent(w, b, name, q);
      case StopListeningOp(a, ids, name, callback) => StopListeningConsistent(w, a, ids, name, callback);
    }
  }

  // ----- the tables as they are updated in place

  method PushInto(slots: seq<Slot>, name: string, h: Handler) returns (more: seq<Slot>)
    ensures more == Bound(slots, name, h)
  {
    var i := 0;
    assert slots[..0] + Bound(slots[0..], name, h) == Bound(slots, name, h);
    while i < |slots| && slots[i].name != name
      invariant 0 <= i <= |slots|
      invariant Bound(slots, name, h) == slots[..i] + Bound(slots[i..], name, h)
    {
      BoundStep(slots, name, h, i);
      i := i + 1;
    }
    BoundEnd(slots, name, h, i);
    if i == |slots| {
      more := slots + [Slot(name, [h])];
    } else {
      more := slots[i := slots[i].(handlers := slots[i].handlers + [h])];
    }
  }

  lemma BoundStep(slots: seq<Slot>, name: string, h: Handler, i: nat)
    requires i < |slots| && slots[i].name != name
    ensures slots[..i] + Bound(slots[i..], name, h) == slots[..i + 1] + Bound(slots[i + 1..], name, h)
  {
    assert slots[i..][1..] == slots[i + 1..];
    assert slots[..i + 1] == slots[..i] + [slots[i]];
  }

  lemma BoundEnd(slots: seq<Slot>, name: string, h: Handler, i: nat)
    requires i <= |slots| && (i < |slots| ==> slots[i].name == name)
    ensures slots[..i] + Bound(slots[i..], name, h) ==
            if i == |slots| then slots + [Slot(name, [h])]
            else slots[i := slots[i].(handlers := slots[i].handlers + [h])]
  {
    if i < |slots| {
      assert slots[i..][1..] == slots[i + 1..];
    }
  }

  /** Of the edges to `b`, only those of `ids` are left in `now`. */
  ghost predicate Cut(was: map<Edge, nat>, now: map<Edge, nat>, b: nat, ids: set<Edge>) {
    && (forall e :: e in ids ==> e in was && e.target == b)
    && (forall e :: e in now <==> e in was && (e.target != b || e in ids))
    && (forall e :: e in now ==> now[e] == was[e])
  }

  lemma CutAll(w: World, now: map<Edge, nat>, b: nat)
    requires TablesAgree(w) && Cut(w.listeners, now, b, {})
    ensures OffAll(w, b).listeners == now && OffAll(w, b).listeningTo == now
  {
  }

  class EventTables {
    var events: map<nat, seq<Slot>>
    var listeners: map<Edge, nat>
    var listeningTo: map<Edge, nat>
    var records: map<nat, Record>
    var next: nat

    ghost function Now(): World
      reads this
    {
      World(events, listeners, listeningTo, records, next)
    }

    constructor ()
      ensures Now() == EMPTY
    {
      events, listeners, listeningTo, records, next := map[], map[], map[], map[], 0;
    }

    /** `onApi`, for the table of `b`. */
    method PushHandler(b: nat, name: string, h: Handler)
      modifies this`events
      ensures events == old(events)[b := Bound(SlotsOf(old(Now()), b), name, h)]
    {
      var slots := PushInto(if b in events then events[b] else [], name, h);
      events := events[b := slots];
    }

    method Bind(b: nat, name: string, callback: Callback, context: Option<nat>)
      modifies this
      ensures Now() == On(old(Now()), b, name, callback, context)
    {
      PushHandler(b, name, Handler(callback, context, None));
    }

    method Listen(a: nat, b: nat, name: string, callback: Callback)
      requires Consistent(Now())
      modifies this
      ensures Now() == ListenTo(old(Now()), a, b, name, callback)
    {
      var r := CountListening(Edge(a, b));
      PushHandler(b, name, Handler(callback, Some(a), Some(r)));
      listeners := listeners[Edge(a, b) := r];
    }

    /** The record of an edge, made when there is none, counts one handler more. */
    method CountListening(e: Edge) returns (r: nat)
      requires TablesAgree(Now())
      modifies this`listeningTo, this`records, this`next
      ensures r == if e in old(listeningTo) then old(listeningTo)[e] else old(next)
      ensures listeningTo == old(listeningTo)[e := r]
      ensures records == old(records)[r := Record(e.listener, e.target, CountOf(old(Now()), e) + 1)]
      ensures next == if e in old(listeningTo) then old(next) else old(next) + 1
    {
      if e !in listeningTo {
        listeningTo := listeningTo[e := next];
        records := records[next := Record(e.listener, e.target, 0)];
        next := next + 1;
      }
      r := listeningTo[e];
      records := records[r := records[r].(count := records[r].count + 1)];
    }

    /** The inner loop of `offApi`: the handlers of one name. */
    method RemoveHandlers(b: nat, handlers: seq<Handler>, q: Query) returns (remaining: seq<Handler>)
      modifies this
      ensures remaining == Remaining(handlers, q) && Now() == DroppedAll(old(Now()), b, handlers, q)
    {
      remaining := [];
      for j := 0 to |handlers|
        invariant remaining == Remaining(handlers[..j], q)
        invariant Now() == DroppedAll(old(Now()), b, handlers[..j], q)
      {
        var h := handlers[j];
        assert handlers[..j + 1][..j] == handlers[..j];
        if !Hit(q, h) {
          remaining := remaining + [h];
        } else if h.listening.Some? && h.listening.value in records {
          var r := h.listening.value;
          var rec := records[r];
          records := records[r := rec.(count := rec.count - 1)];
          if rec.count - 1 == 0 {
            listeners := listeners - {Edge(rec.owner, b)};
            listeningTo := listeningTo - {Edge(rec.owner, rec.target)};
          }
        }
      }
      assert handlers[..|handlers|] == handlers;
    }

    /** The first part of `offApi`: no arguments, all listeners of `b` go. */
    method RemoveListeners(b: nat)
      requires TablesAgree(Now())
      modifies this
      ensures Now() == OffAll(old(Now()), b)
    {
      var ids := set e | e in listeners && e.target == b;
      ghost var was := Now();
      while ids != {}
        invariant Cut(was.listeners, listeners, b, ids) && listeningTo == listeners
        invariant Now() == was.(listeners := listeners, listeningTo := listeningTo)
      {
        var e :| e in ids;
        var listening := records[listeners[e]];
        assert Edge(listening.owner, b) == e == Edge(listening.owner, listening.target);
        listeners := listeners - {Edge(listening.owner, b)};
        listeningTo := listeningTo - {Edge(listening.owner, listening.target)};
        ids := ids - {e};
      }
      CutAll(was, listeners, b);
      events := events - {b};
    }

    method Unbind(b: nat, name: Option<string>, q: Query)
      requires Consistent(Now())
      modifies this
      ensures Now() == Off(old(Now()), b, name, q) && Consistent(Now())
    {
      OffConsistent(Now(), b, name, q);
      if b !in events { return; }
      if name.None? && q.callback.None? && q.context.None? {
        RemoveListeners(b);
      } else {
        RemoveSome(b, name, q);
      }
    }

    /** The rest of `offApi`: through the names, or the one name. */
    method RemoveSome(b: nat, name: Option<string>, q: Query)
      requires b in events
      modifies this
      ensures Now() == OffRecords(old(Now()), b, old(events)[b], name, q)
                       .(events := old(events)[b := OffSlots(old(events)[b], name, q)])
    {
      var slots := events[b];
      var left := [];
      for i := 0 to |slots|
        invariant left == OffSlots(slots[..i], name, q)
        invariant Now() == OffRecords(old(Now()), b, slots[..i], name, q)
      {
        assert slots[..i + 1][..i] == slots[..i];
        if Concerned(name, slots[i]) {
          var remaining := RemoveHandlers(b, slots[i].handlers, q);
          if remaining != [] { left := left + [slots[i].(handlers := remaining)]; }
        } else if slots[i].handlers != [] {
          left := left + [slots[i]];
        }
      }
      assert slots[..|slots|] == slots;
      OffKeepsEvents(old(Now()), b, slots, name, q);
      events := events[b := left];
    }

    method Unlisten(a: nat, ids: seq<nat>, name: Option<string>, callback: Option<nat>)
      requires Consistent(Now())
      modifies this
      ensures Now() == StopListening(old(Now()), a, ids, name, callback) && Consistent(Now())
    {
      for i := 0 to |ids|
        invariant Consistent(Now())
        invariant StopListening(old(Now()), a, ids, name, callback) ==
                  StopListening(Now(), a, ids[i..], name, callback)
      {
        assert ids[i..][1..] == ids[i + 1..];
        if Edge(a, ids[i]) !in listeningTo { return; }
        Unbind(ids[i], name, Query(callback, Some(a)));
      }
    }
  }
}
