/** Backbone.Collection: an ordered list of models with an index by id and cid. A model goes by its cid; ids do not
    change while the collection is updated, and no comparator is set. */
module Collections {
  import opened Options
  import opened Lists

  datatype Key = Cid(cid: nat) | Id(id: nat)

  type Index = map<Key, nat>

  /** The id of every model there is, by cid. */
  type Ids = map<nat, Option<nat>>

  /** An entry of the input: a model, or attributes with the id they give (and whether a model made of
      them is valid). */
  datatype Entry = Known(cid: nat) | Attrs(id: Option<nat>, valid: bool)

  datatype SetOptions = SetOptions(add: bool, remove: bool, at: Option<int>)

  // ----- the index

  /** The index holds every member under its cid and, if it has one, its id, and nothing else. */
  ghost predicate Indexed(members: set<nat>, byId: Index, ids: Ids) {
    && (forall c :: c in members ==> c in ids)
    && (forall c: nat :: Cid(c) in byId <==> c in members)
    && (forall c: nat :: c in members ==> byId[Cid(c)] == c)
    && (forall c: nat :: c in members && ids[c].Some? ==> Id(ids[c].value) in byId && byId[Id(ids[c].value)] == c)
    && (forall i: nat :: Id(i) in byId ==> byId[Id(i)] in members && ids[byId[Id(i)]] == Some(i))
  }

  function IdOf(ids: Ids, e: Entry): Option<nat>
    requires e.Known? ==> e.cid in ids
  {
    if e.Known? then ids[e.cid] else e.id
  }

  /** `get` */
  function Lookup(byId: Index, ids: Ids, e: Entry): Option<nat>
    requires e.Known? ==> e.cid in ids
  {
    var id := IdOf(ids, e);
    if id.Some? && Id(id.value) in byId then Some(byId[Id(id.value)])
    else if e.Known? && Cid(e.cid) in byId then Some(byId[Cid(e.cid)])
    else None
  }

  /** `_addReference` */
  function Referenced(byId: Index, ids: Ids, c: nat): Index
    requires c in ids
  {
    var with := byId[Cid(c) := c];
    if ids[c].Some? then with[Id(ids[c].value) := c] else with
  }

  /** `_removeReference` */
  function Dereferenced(byId: Index, ids: Ids, c: nat): Index
    requires c in ids
  {
    if ids[c].Some? then byId - {Cid(c), Id(ids[c].value)} else byId - {Cid(c)}
  }

  /** No member has the id or the cid of `c`. */
  ghost predicate Free(members: set<nat>, ids: Ids, c: nat)
    requires c in ids && forall m :: m in members ==> m in ids
  {
    c !in members && (ids[c].Some? ==> forall m :: m in members ==> ids[m] != ids[c])
  }

  lemma ReferencedIndexed(members: set<nat>, byId: Index, ids: Ids, c: nat)
    requires Indexed(members, byId, ids) && c in ids && Free(members, ids, c)
    ensures Indexed(members + {c}, Referenced(byId, ids, c), ids)
  {
  }

  lemma DereferencedIndexed(members: set<nat>, byId: Index, ids: Ids, c: nat)
    requires Indexed(members, byId, ids) && c in members
    ensures Indexed(members - {c}, Dereferenced(byId, ids, c), ids)
  {
  }

  /** `_onModelEvent`, when a "change" event tells that the id of `c` was `prev` and is `id` now. */
  function Rekeyed(byId: Index, prev: Option<nat>, id: Option<nat>, c: nat): Index {
    if prev == id then byId
    else
      var without := if prev.Some? then byId - {Id(prev.value)} else byId;
      if id.Some? then without[Id(id.value) := c] else without
  }

  /** No other member has the id. */
  ghost predicate Unused(members: set<nat>, ids: Ids, c: nat, id: Option<nat>) {
    id.Some? ==> forall m :: m in members && m in ids && ids[m] == id ==> m == c
  }

  /** Following a change of id keeps the index right exactly when no other member has the new id. */
  lemma RekeyedExact(members: set<nat>, byId: Index, ids: Ids, c: nat, id: Option<nat>)
    requires Indexed(members, byId, ids) && c in members
    ensures Indexed(members, Rekeyed(byId, ids[c], id, c), ids[c := id]) <==> Unused(members, ids, c, id)
  {
  }

  /** Member 0 takes the id 20 of member 1: the id then finds member 0 only, and with the next change nothing. */
  lemma TakenIdFails()
    ensures var ids: Ids := map[0 := Some(10), 1 := Some(20)];
            var byId: Index := map[Cid(0) := 0, Cid(1) := 1, Id(10) := 0, Id(20) := 1];
            var clash := Rekeyed(byId, Some(10), Some(20), 0);
            && Indexed({0, 1}, byId, ids) && clash[Id(20)] == 0 && !Indexed({0, 1}, clash, ids[0 := Some(20)])
            && Id(20) !in Rekeyed(clash, Some(20), None, 0)
  {
    var ids: Ids := map[0 := Some(10), 1 := Some(20)];
    var byId: Index := map[Cid(0) := 0, Cid(1) := 1, Id(10) := 0, Id(20) := 1];
    RekeyedExact({0, 1}, byId, ids, 0, Some(20));
    assert 1 in {0, 1} && ids[1] == Some(20);
  }

  /** Does the entry stand for model `c`, by id or by identity? */
  ghost predicate StandsFor(ids: Ids, e: Entry, c: nat)
    requires (e.Known? ==> e.cid in ids) && c in ids
  {
    match e
    case Known(cid) => c == cid || (ids[c].Some? && ids[c] == ids[cid])
    case Attrs(id, _) => id.Some? && ids[c] == id
  }

  /** `get` finds a member the entry stands for, whenever there is one. */
  lemma LookupFinds(members: set<nat>, byId: Index, ids: Ids, e: Entry)
    requires Indexed(members, byId, ids) && (e.Known? ==> e.cid in ids)
    ensures var r := Lookup(byId, ids, e);
            && (r.Some? ==> r.value in members && StandsFor(ids, e, r.value))
            && (forall c :: c in members && StandsFor(ids, e, c) ==> r == Some(c))
  {
  }

  // ----- the first pass of `set`: entries become members

  /** What the pass has done: the members met (`set`), the new ones among them (`toAdd`), what each entry became
      (`None` if nothing), and the index and the models there are by then. */
  datatype Pass = Pass(met: seq<nat>, toAdd: seq<nat>, became: seq<Option<nat>>, byId: Index, ids: Ids, next: nat)

  function Resolved(p: Pass, e: Entry, add: bool): Pass
    requires e.Known? ==> e.cid in p.ids
  {
    var existing := Lookup(p.byId, p.ids, e);
    if existing.Some? then
      p.(met := if existing.value in p.met then p.met else p.met + [existing.value], became := p.became + [existing])
    else if !add || (e.Attrs? && !e.valid) then
      p.(became := p.became + [None])
    else
      var c := if e.Known? then e.cid else p.next;
      var ids := if e.Known? then p.ids else p.ids[c := e.id];
      Pass(p.met + [c], p.toAdd + [c], p.became + [Some(c)], Referenced(p.byId, ids, c), ids,
           if e.Known? then p.next else p.next + 1)
  }

  ghost predicate KnownIn(ids: Ids, entries: seq<Entry>) {
    forall i :: 0 <= i < |entries| && entries[i].Known? ==> entries[i].cid in ids
  }

  function ResolveAll(p: Pass, entries: seq<Entry>, add: bool): (r: Pass)
    requires KnownIn(p.ids, entries)
    ensures forall c :: c in p.ids ==> c in r.ids
  {
    if entries == [] then p
    else
      var n := |entries| - 1;
      var before := ResolveAll(p, entries[..n], add);
      assert entries[n].Known? ==> entries[n].cid in p.ids;
      Resolved(before, entries[n], add)
  }

  function Elements(s: seq<nat>): set<nat> {
    set c | c in s
  }

  ghost predicate Distinct(s: seq<nat>) {
    forall i, j :: 0 <= i < j < |s| ==> s[i] != s[j]
  }

  /** First occurrences, in order, of what the entries became. */
  function FirstOccurrences(became: seq<Option<nat>>): seq<nat> {
    if became == [] then []
    else
      var n := |became| - 1;
      var before := FirstOccurrences(became[..n]);
      if became[n].None? || became[n].value in before then before else before + [became[n].value]
  }

  /** What holds during the pass, for a collection that had the models `prior`. */
  ghost predicate PassSound(prior: seq<nat>, priorIds: Ids, p: Pass, entries: seq<Entry>, add: bool) {
    && |p.became| == |entries|
    && Indexed(Elements(prior) + Elements(p.toAdd), p.byId, p.ids)
    && (forall c :: c in p.ids ==> c < p.next)
    && (forall c :: c in priorIds ==> c in p.ids && p.ids[c] == priorIds[c])
    && p.met == FirstOccurrences(p.became) && Distinct(p.met)
    && Distinct(p.toAdd) && (forall c :: c in p.toAdd ==> c in p.met && c !in prior)
    && (forall c :: c in p.met ==> c in prior || c in p.toAdd)
    && p.toAdd == Only(p.met, prior, false)
    && (forall i :: 0 <= i < |entries| ==> EntryBecame(prior, priorIds, p, entries[i], p.became[i], add))
  }

  /** Model `c` is one the entry stands for, or a new one without an id, as the attributes have none. */
  ghost predicate BecameModel(priorIds: Ids, ids: Ids, e: Entry, c: nat) {
    && c in ids && (e.Known? ==> e.cid in ids)
    && (StandsFor(ids, e, c) || (e == Attrs(None, true) && c !in priorIds && ids[c].None?))
  }

  /** An entry became a model it stands for, an old one if possible; it became nothing only for want of one. */
  ghost predicate EntryBecame(prior: seq<nat>, priorIds: Ids, p: Pass, e: Entry, r: Option<nat>, add: bool) {
    && (e.Known? ==> e.cid in priorIds)
    && (r.Some? ==> r.value in p.met && BecameModel(priorIds, p.ids, e, r.value))
    && (forall c :: c in prior && c in priorIds && StandsFor(priorIds, e, c) ==> r == Some(c))
    && (r.None? ==> !add || (e.Attrs? && !e.valid))
  }

  lemma StartSound(prior: seq<nat>, byId: Index, ids: Ids, next: nat, add: bool)
    requires Indexed(Elements(prior), byId, ids) && Distinct(prior) && forall c :: c in ids ==> c < next
    ensures PassSound(prior, ids, Pass([], [], [], byId, ids, next), [], add)
  {
  }

  /** The pass has gone on from `p` to `q`. */
  ghost predicate Onward(p: Pass, q: Pass) {
    && p.met <= q.met
    && (forall c :: c in p.ids ==> c in q.ids && q.ids[c] == p.ids[c])
  }

  lemma EntryKept(prior: seq<nat>, priorIds: Ids, p: Pass, q: Pass, e: Entry, r: Option<nat>, add: bool)
    requires EntryBecame(prior, priorIds, p, e, r, add) && Onward(p, q)
    ensures EntryBecame(prior, priorIds, q, e, r, add)
  {
  }

  lemma FirstExtended(became: seq<Option<nat>>, r: Option<nat>)
    ensures var f := FirstOccurrences(became);
            FirstOccurrences(became + [r]) == if r.None? || r.value in f then f else f + [r.value]
  {
  }

  /** The model that an entry adds: the one passed in, or the next one. */
  function Newcomer(p: Pass, e: Entry): nat {
    if e.Known? then e.cid else p.next
  }

  function IdsWith(p: Pass, e: Entry): Ids {
    if e.Known? then p.ids else p.ids[p.next := e.id]
  }

  /** When `get` finds nothing, the model to be added is no member, and neither its cid nor its id is taken. */
  lemma NewcomerFree(members: set<nat>, p: Pass, e: Entry)
    requires Indexed(members, p.byId, p.ids) && (forall c :: c in p.ids ==> c < p.next)
    requires (e.Known? ==> e.cid in p.ids) && Lookup(p.byId, p.ids, e).None?
    ensures Newcomer(p, e) !in members
    ensures Indexed(members, p.byId, IdsWith(p, e)) && Free(members, IdsWith(p, e), Newcomer(p, e))
  {
    LookupFinds(members, p.byId, p.ids, e);
    forall m | m in members ensures m != Newcomer(p, e) && !StandsFor(p.ids, e, m) {
    }
  }

  ghost function MembersOf(prior: seq<nat>, p: Pass): set<nat> {
    Elements(prior) + Elements(p.toAdd)
  }

  /** What an entry does to the lists of a pass: it meets an old member, nothing, or a newcomer. */
  lemma ResolvedLists(prior: seq<nat>, priorIds: Ids, p: Pass, entries: seq<Entry>, e: Entry, add: bool)
    requires PassSound(prior, priorIds, p, entries, add) && (e.Known? ==> e.cid in priorIds)
    ensures var q, found := Resolved(p, e, add), Lookup(p.byId, p.ids, e);
            if found.Some? then
              && found.value in MembersOf(prior, p) && q.toAdd == p.toAdd && q.byId == p.byId && q.ids == p.ids
              && q.next == p.next && q.became == p.became + [found]
              && q.met == (if found.value in p.met then p.met else p.met + [found.value])
            else if q.toAdd == p.toAdd then
              q == p.(became := p.became + [None])
            else
              var c := Newcomer(p, e);
              && c !in MembersOf(prior, p) && q.toAdd == p.toAdd + [c] && q.met == p.met + [c]
              && q.became == p.became + [Some(c)] && q.ids == IdsWith(p, e) && q.byId == Referenced(p.byId, q.ids, c)
              && Free(MembersOf(prior, p), q.ids, c) && Indexed(MembersOf(prior, p), p.byId, q.ids)
              && q.next == (if e.Known? then p.next else p.next + 1)
  {
    if Lookup(p.byId, p.ids, e).None? {
      NewcomerFree(MembersOf(prior, p), p, e);
    } else {
      LookupFinds(MembersOf(prior, p), p.byId, p.ids, e);
    }
  }

  /** All but the new entry's part of `PassSound`. */
  lemma ResolvedShape(prior: seq<nat>, priorIds: Ids, p: Pass, entries: seq<Entry>, e: Entry, add: bool)
    requires PassSound(prior, priorIds, p, entries, add) && (e.Known? ==> e.cid in priorIds)
    ensures var q := Resolved(p, e, add);
            && Onward(p, q) && |q.became| == |entries| + 1 && q.became[..|entries|] == p.became
            && q.met == FirstOccurrences(q.became)
            && (forall c :: c in priorIds ==> c in q.ids && q.ids[c] == priorIds[c])
            && (forall c :: c in q.ids ==> c < q.next)
  {
    var q := Resolved(p, e, add);
    ResolvedLists(prior, priorIds, p, entries, e, add);
    FirstExtended(p.became, q.became[|entries|]);
    assert forall c :: c in p.met ==> c in MembersOf(prior, p);
  }

  lemma OnlyPushed(met: seq<nat>, prior: seq<nat>, met': seq<nat>)
    ensures |met'| == |met| + 1 && met <= met' ==>
              Only(met', prior, false) == Only(met, prior, false) + if met'[|met|] in prior then [] else [met'[|met|]]
  {
  }

  /** The index, when a new model is added for the entry. */
  lemma ResolvedIndexed(prior: seq<nat>, priorIds: Ids, p: Pass, entries: seq<Entry>, e: Entry, add: bool)
    requires PassSound(prior, priorIds, p, entries, add) && (e.Known? ==> e.cid in priorIds)
    ensures var q := Resolved(p, e, add); Indexed(Elements(prior) + Elements(q.toAdd), q.byId, q.ids)
  {
    var q := Resolved(p, e, add);
    ResolvedLists(prior, priorIds, p, entries, e, add);
    if q.toAdd != p.toAdd {
      ReferencedIndexed(MembersOf(prior, p), p.byId, q.ids, Newcomer(p, e));
      assert Elements(prior) + Elements(q.toAdd) == MembersOf(prior, p) + {Newcomer(p, e)};
    }
  }

  lemma ResolvedMembers(prior: seq<nat>, priorIds: Ids, p: Pass, entries: seq<Entry>, e: Entry, add: bool)
    requires PassSound(prior, priorIds, p, entries, add) && (e.Known? ==> e.cid in priorIds)
    ensures var q := Resolved(p, e, add);
            && Distinct(q.met) && Distinct(q.toAdd) && (forall c :: c in q.toAdd ==> c in q.met && c !in prior)
            && (forall c :: c in q.met ==> c in prior || c in q.toAdd)
            && q.toAdd == Only(q.met, prior, false)
  {
    ResolvedLists(prior, priorIds, p, entries, e, add);
    OnlyPushed(p.met, prior, Resolved(p, e, add).met);
  }

  lemma ResolvedEntry(prior: seq<nat>, priorIds: Ids, p: Pass, entries: seq<Entry>, e: Entry, add: bool)
    requires PassSound(prior, priorIds, p, entries, add) && (e.Known? ==> e.cid in priorIds)
    requires forall c :: c in prior ==> c in priorIds
    ensures EntryBecame(prior, priorIds, Resolved(p, e, add), e, Resolved(p, e, add).became[|entries|], add)
  {
    var q := Resolved(p, e, add);
    var members := Elements(prior) + Elements(p.toAdd);
    LookupFinds(members, p.byId, p.ids, e);
    forall c | c in prior && StandsFor(priorIds, e, c) ensures q.became[|entries|] == Some(c) {
      assert c in members && StandsFor(p.ids, e, c);
    }
  }

  lemma ResolvedSound(prior: seq<nat>, priorIds: Ids, p: Pass, entries: seq<Entry>, e: Entry, add: bool)
    requires PassSound(prior, priorIds, p, entries, add) && (e.Known? ==> e.cid in priorIds)
    requires forall c :: c in prior ==> c in priorIds
    ensures PassSound(prior, priorIds, Resolved(p, e, add), entries + [e], add)
  {
    ResolvedShape(prior, priorIds, p, entries, e, add);
    ResolvedIndexed(prior, priorIds, p, entries, e, add);
    ResolvedMembers(prior, priorIds, p, entries, e, add);
    ResolvedEntry(prior, priorIds, p, entries, e, add);
    EntriesKept(prior, priorIds, p, Resolved(p, e, add), entries, e, add);
  }

  /** What the entries before became stays true. */
  lemma EntriesKept(prior: seq<nat>, priorIds: Ids, p: Pass, q: Pass, entries: seq<Entry>, e: Entry, add: bool)
    requires PassSound(prior, priorIds, p, entries, add) && Onward(p, q)
    requires |q.became| == |entries| + 1 && q.became[..|entries|] == p.became
    requires EntryBecame(prior, priorIds, q, e, q.became[|entries|], add)
    ensures forall i :: 0 <= i < |entries + [e]| ==>
              EntryBecame(prior, priorIds, q, (entries + [e])[i], q.became[i], add)
  {
    forall i | 0 <= i < |entries| ensures EntryBecame(prior, priorIds, q, entries[i], q.became[i], add) {
      assert q.became[i] == p.became[i];
      EntryKept(prior, priorIds, p, q, entries[i], p.became[i], add);
    }
  }

  lemma {:induction false} ResolveAllSound(prior: seq<nat>, priorIds: Ids, p: Pass, entries: seq<Entry>, add: bool)
    requires PassSound(prior, priorIds, p, [], add) && p.ids == priorIds && KnownIn(priorIds, entries)
    requires forall c :: c in prior ==> c in priorIds
    ensures PassSound(prior, priorIds, ResolveAll(p, entries, add), entries, add)
  {
    if entries != [] {
      var n := |entries| - 1;
      var front := entries[..n];
      assert front + [entries[n]] == entries;
      ResolveAllSound(prior, priorIds, p, front, add);
      ResolvedSound(prior, priorIds, ResolveAll(p, front, add), front, entries[n], add);
    }
  }

  /** Attributes without an id become a model that no earlier entry became, and a model added that existed before was
      passed in. */
  ghost predicate NewModels(priorIds: Ids, p: Pass, entries: seq<Entry>) {
    && |p.became| == |entries|
    && (forall i, j :: 0 <= i < j < |entries| && entries[j] == Attrs(None, true) ==> p.became[i] != p.became[j])
    && (forall c :: c in p.toAdd && c in priorIds ==> Known(c) in entries)
  }

  /** All cids in sight are those of models there are, and smaller than the next one. */
  ghost predicate CidsKnown(priorIds: Ids, p: Pass) {
    && (forall c :: c in priorIds ==> c in p.ids)
    && (forall c :: c in p.ids ==> c < p.next)
    && (forall k :: k in p.byId ==> p.byId[k] in p.ids)
    && (forall i :: 0 <= i < |p.became| && p.became[i].Some? ==> p.became[i].value in p.ids)
  }

  lemma {:induction false} ResolveAllNew(p: Pass, entries: seq<Entry>)
    requires p.toAdd == [] && p.became == [] && CidsKnown(p.ids, p) && KnownIn(p.ids, entries)
    ensures CidsKnown(p.ids, ResolveAll(p, entries, true)) && NewModels(p.ids, ResolveAll(p, entries, true), entries)
  {
    if entries != [] {
      var n := |entries| - 1;
      ResolveAllNew(p, entries[..n]);
      ResolvedNew(p.ids, ResolveAll(p, entries[..n], true), entries[..n], entries[n]);
      assert entries == entries[..n] + [entries[n]];
    }
  }

  lemma ResolvedNew(priorIds: Ids, p: Pass, entries: seq<Entry>, e: Entry)
    requires CidsKnown(priorIds, p) && NewModels(priorIds, p, entries) && (e.Known? ==> e.cid in priorIds)
    ensures CidsKnown(priorIds, Resolved(p, e, true)) && NewModels(priorIds, Resolved(p, e, true), entries + [e])
  {
    var q, n := Resolved(p, e, true), |entries|;
    assert (entries + [e])[n] == e;
    forall c | c in q.toAdd && c in priorIds ensures Known(c) in entries + [e] {
      if c !in p.toAdd { assert c == q.toAdd[|p.toAdd|]; }
    }
  }

  // ----- removing

  lemma DistinctPush(s: seq<nat>, x: nat)
    requires Distinct(s) && x !in s
    ensures Distinct(s + [x])
  {
  }

  lemma {:induction false} WithoutOnly(models: seq<nat>, c: nat)
    requires Distinct(models)
    ensures Distinct(Without(models, c)) && forall m :: m in Without(models, c) <==> m in models && m != c
    ensures c !in models ==> Without(models, c) == models
  {
    if models != [] {
      var n := |models| - 1;
      WithoutOnly(models[..n], c);
      assert models == models[..n] + [models[n]] && models[n] !in models[..n];
      if models[n] != c { DistinctPush(Without(models[..n], c), models[n]); }
    }
  }

  /** With distinct models, splicing out the position of a model is dropping the model. */
  lemma {:induction false} SplicedOut(models: seq<nat>, i: nat)
    requires Distinct(models) && i < |models|
    ensures Without(models, models[i]) == models[..i] + models[i + 1..]
  {
    var n := |models| - 1;
    var c := models[i];
    assert models == models[..n] + [models[n]];
    if i == n {
      WithoutOnly(models[..n], c);
      assert models[..i] + models[i + 1..] == models[..n];
    } else {
      assert models[n] != c;
      SplicedOut(models[..n], i);
      assert models[..n][..i] + models[..n][i + 1..] + [models[n]] == models[..i] + models[i + 1..];
    }
  }

  /** The models of a collection and their index. */
  datatype Members = Members(models: seq<nat>, byId: Index)

  /** One round of `_removeModels`: what `get` finds goes. */
  function RemovedOne(ms: Members, ids: Ids, e: Entry): Members
    requires e.Known? ==> e.cid in ids
  {
    var found := Lookup(ms.byId, ids, e);
    if found.None? || found.value !in ids then ms
    else Members(Without(ms.models, found.value), Dereferenced(ms.byId, ids, found.value))
  }

  /** It removes the member that the entry stands for, by id or by identity, and nothing when there is none. */
  lemma RemovedOneMeaning(ms: Members, members: set<nat>, ids: Ids, e: Entry)
    requires Indexed(members, ms.byId, ids) && (e.Known? ==> e.cid in ids)
    ensures var r := RemovedOne(ms, ids, e);
            && (forall c :: c in members && StandsFor(ids, e, c) ==>
                  r.models == Without(ms.models, c) && Indexed(members - {c}, r.byId, ids))
            && ((forall c :: c in members ==> !StandsFor(ids, e, c)) ==> r == ms)
  {
    LookupFinds(members, ms.byId, ids, e);
    var found := Lookup(ms.byId, ids, e);
    if found.Some? { DereferencedIndexed(members, ms.byId, ids, found.value); }
  }

  function RemovedAll(ms: Members, ids: Ids, es: seq<Entry>): Members
    requires KnownIn(ids, es)
  {
    if es == [] then ms
    else
      var n := |es| - 1;
      RemovedOne(RemovedAll(ms, ids, es[..n]), ids, es[n])
  }

  function AsEntries(cs: seq<nat>): (es: seq<Entry>)
    ensures |es| == |cs| && forall i :: 0 <= i < |cs| ==> es[i] == Known(cs[i])
  {
    seq(|cs|, i requires 0 <= i < |cs| => Known(cs[i]))
  }

  /** The members of `models` that are, or are not, among `cs`, in order. */
  function Only(models: seq<nat>, cs: seq<nat>, kept: bool): seq<nat> {
    if models == [] then []
    else
      var n := |models| - 1;
      Only(models[..n], cs, kept) + if (models[n] in cs) == kept then [models[n]] else []
  }

  lemma {:induction false} OnlyElements(models: seq<nat>, cs: seq<nat>, kept: bool)
    requires Distinct(models)
    ensures Distinct(Only(models, cs, kept))
    ensures forall m :: m in Only(models, cs, kept) <==> m in models && (m in cs) == kept
  {
    if models != [] {
      var n := |models| - 1;
      OnlyElements(models[..n], cs, kept);
      assert models == models[..n] + [models[n]];
    }
  }

  lemma {:induction false} OnlyWithout(models: seq<nat>, cs: seq<nat>, c: nat)
    ensures Without(Only(models, cs, false), c) == Only(models, cs + [c], false)
  {
    if models != [] {
      var n := |models| - 1;
      var before := Only(models[..n], cs, false);
      OnlyWithout(models[..n], cs, c);
      if models[n] !in cs {
        assert (before + [models[n]])[..|before|] == before;
      } else {
        assert before + [] == before;
      }
    }
  }

  lemma {:induction false} OnlyNone(models: seq<nat>)
    ensures Only(models, [], false) == models
  {
    if models != [] {
      OnlyNone(models[..|models| - 1]);
      assert models == models[..|models| - 1] + [models[|models| - 1]];
    }
  }

  /** Removing distinct members, by themselves, leaves the others in order, and an index of them. */
  lemma {:induction false} RemovedMembers(ms: Members, members: set<nat>, ids: Ids, cs: seq<nat>)
    requires Indexed(members, ms.byId, ids) && Distinct(cs) && forall c :: c in cs ==> c in members
    ensures KnownIn(ids, AsEntries(cs))
    ensures var r := RemovedAll(ms, ids, AsEntries(cs));
            r.models == Only(ms.models, cs, false) && Indexed(members - Elements(cs), r.byId, ids)
  {
    if cs == [] {
      OnlyNone(ms.models);
      assert members - Elements(cs) == members;
    } else {
      var n := |cs| - 1;
      var c := cs[n];
      assert cs == cs[..n] + [c] && AsEntries(cs)[..n] == AsEntries(cs[..n]);
      RemovedMembers(ms, members, ids, cs[..n]);
      var before := RemovedAll(ms, ids, AsEntries(cs[..n]));
      var left := members - Elements(cs[..n]);
      assert c in left;
      LookupFinds(left, before.byId, ids, Known(c));
      assert StandsFor(ids, Known(c), c);
      OnlyWithout(ms.models, cs[..n], c);
      DereferencedIndexed(left, before.byId, ids, c);
      assert left - {c} == members - Elements(cs);
    }
  }

  // ----- the whole of `set`

  /** The position at which `splice` inserts new models. */
  function InsertionPoint(at: Option<int>, length: nat): (p: nat)
    ensures p <= length
  {
    if at.None? || at.value > length then length
    else
      var a := if at.value < 0 then at.value + length + 1 else at.value;
      if a < 0 then 0 else a
  }

  /** At the end by default and beyond it, at the position asked for within, counted from the end when negative. */
  lemma InsertionPointMeaning(at: int, length: nat)
    ensures InsertionPoint(None, length) == length
    ensures 0 <= at <= length ==>
              InsertionPoint(Some(at), length) == at && InsertionPoint(Some(-1 - at), length) == length - at
    ensures at > length ==> InsertionPoint(Some(at), length) == length && InsertionPoint(Some(-1 - at), length) == 0
  {
  }

  function Spliced(models: seq<nat>, insert: seq<nat>, p: nat): seq<nat>
    requires p <= |models|
  {
    models[..p] + insert + models[p..]
  }

  /** `models` after `set`, when the first pass has met `met` and is to add `toAdd`. */
  function SetModels(prior: seq<nat>, met: seq<nat>, toAdd: seq<nat>, o: SetOptions): seq<nat> {
    if o.add && o.remove then met
    else if o.remove then Only(prior, met, true)
    else Spliced(prior, toAdd, InsertionPoint(o.at, |prior|))
  }

  /** The same, from the models that are left when the stale ones have been removed. */
  function Installed(left: seq<nat>, met: seq<nat>, toAdd: seq<nat>, o: SetOptions): seq<nat> {
    if met != [] && o.add && o.remove then met
    else if toAdd != [] then Spliced(left, toAdd, InsertionPoint(o.at, |left|))
    else left
  }

  /** The members left by the first pass, once stale ones are gone. */
  lemma StaleRemoved(prior: seq<nat>, p: Pass, members: set<nat>)
    requires members == Elements(prior) + Elements(p.toAdd) && Distinct(prior)
    requires forall c :: c in p.toAdd ==> c in p.met && c !in prior
    requires forall c :: c in p.met ==> c in prior || c in p.toAdd
    ensures members - Elements(Only(prior, p.met, false)) == Elements(p.met)
    ensures forall c :: c in Only(prior, p.met, false) ==> c in members
  {
    OnlyElements(prior, p.met, false);
  }

  lemma {:induction false} OnlyStale(models: seq<nat>, met: seq<nat>, stale: seq<nat>)
    requires forall c :: c in models ==> (c in stale <==> c !in met)
    ensures Only(models, stale, false) == Only(models, met, true)
  {
    if models != [] {
      var n := |models| - 1;
      assert models == models[..n] + [models[n]] && models[n] in models;
      OnlyStale(models[..n], met, stale);
    }
  }

  class Collection {
    var models: seq<nat>
    var length: nat
    var byId: Index
    var ids: Ids
    var next: nat

    /** `length`, the ordered duplicate-free `models` and the index agree. */
    ghost predicate Valid()
      reads this
    {
      && length == |models| && Distinct(models)
      && Indexed(Elements(models), byId, ids)
      && (forall c :: c in ids ==> c < next)
    }

    constructor (ids: Ids, next: nat)
      requires forall c :: c in ids ==> c < next
      ensures Valid() && models == [] && this.ids == ids && this.next == next
    {
      models, length, byId := [], 0, map[];
      this.ids, this.next := ids, next;
    }

    ghost function Start(): Pass
      reads this
    {
      Pass([], [], [], byId, ids, next)
    }

    /** The loop over the input of `set`. */
    method Resolve(entries: seq<Entry>, add: bool) returns (met: seq<nat>, toAdd: seq<nat>, became: seq<Option<nat>>)
      requires KnownIn(ids, entries)
      modifies this`byId, this`ids, this`next
      ensures Pass(met, toAdd, became, byId, ids, next) == ResolveAll(old(Start()), entries, add)
    {
      met, toAdd, became := [], [], [];
      ghost var start := Start();
      for i := 0 to |entries|
        invariant KnownIn(start.ids, entries)
        invariant Pass(met, toAdd, became, byId, ids, next) == ResolveAll(start, entries[..i], add)
      {
        var e := entries[i];
        assert entries[..i + 1][..i] == entries[..i];
        assert e.Known? ==> e.cid in ids;
        var existing := Lookup(byId, ids, e);
        if existing.Some? {
          if existing.value !in met { met := met + [existing.value]; }
          became := became + [existing];
        } else if add && (e.Attrs? ==> e.valid) {
          var c := if e.Known? then e.cid else next;
          if e.Attrs? { ids, next := ids[c := e.id], next + 1; }
          toAdd := toAdd + [c];
          byId := Referenced(byId, ids, c);
          met := met + [c];
          became := became + [Some(c)];
        } else {
          became := became + [None];
        }
      }
      assert entries[..|entries|] == entries;
    }

    /** `_removeModels` */
    method RemoveModels(es: seq<Entry>)
      requires Distinct(models) && length == |models| && KnownIn(ids, es)
      modifies this`models, this`length, this`byId
      ensures Members(models, byId) == RemovedAll(Members(old(models), old(byId)), ids, es)
      ensures Distinct(models) && length == |models|
    {
      ghost var was := Members(models, byId);
      for k := 0 to |es|
        invariant Distinct(models) && length == |models|
        invariant Members(models, byId) == RemovedAll(was, ids, es[..k])
      {
        assert es[..k + 1][..k] == es[..k];
        RemoveOne(es[k]);
      }
      assert es[..|es|] == es;
    }

    /** One round of its loop. */
    method RemoveOne(e: Entry)
      requires Distinct(models) && length == |models| && (e.Known? ==> e.cid in ids)
      modifies this`models, this`length, this`byId
      ensures Members(models, byId) == RemovedOne(Members(old(models), old(byId)), ids, e)
      ensures Distinct(models) && length == |models|
    {
      var found := Lookup(byId, ids, e);
      if found.Some? && found.value in ids {
        var c := found.value;
        WithoutOnly(models, c);
        models := SpliceOut(models, c);
        length := |models|;
        byId := Dereferenced(byId, ids, c);
      }
    }

    /** `set`: the collection agrees with itself again, and its models are those the options ask for. */
    method Set(entries: seq<Entry>, o: SetOptions) returns (became: seq<Option<nat>>)
      requires Valid() && KnownIn(ids, entries)
      modifies this
      ensures Valid()
      ensures var p := ResolveAll(old(Start()), entries, o.add);
              && became == p.became && ids == p.ids && next == p.next
              && models == SetModels(old(models), p.met, p.toAdd, o)
    {
      ghost var prior, priorIds, p := models, ids, ResolveAll(Start(), entries, o.add);
      FirstPassSound(models, byId, ids, next, entries, o.add);
      var met, toAdd;
      met, toAdd, became := Resolve(entries, o.add);
      InstalledSound(prior, priorIds, p, entries, o);
      if o.remove { RemoveStale(met); }
      assert Members(models, byId) == FinalMembers(prior, p, o);
      Install(met, toAdd, o);
    }

    /** The models not met go. */
    method RemoveStale(met: seq<nat>)
      requires Distinct(models) && length == |models| && KnownIn(ids, AsEntries(Only(models, met, false)))
      modifies this`models, this`length, this`byId
      ensures Members(models, byId) ==
              RemovedAll(Members(old(models), old(byId)), ids, AsEntries(Only(old(models), met, false)))
      ensures Distinct(models) && length == |models|
    {
      RemoveModels(AsEntries(Only(models, met, false)));
    }

    /** A member changes its id, and its "change" event brings the index up to date. */
    method ChangeId(c: nat, id: Option<nat>)
      requires Valid() && c in models
      modifies this`ids, this`byId
      ensures ids == old(ids)[c := id] && byId == Rekeyed(old(byId), old(ids)[c], id, c)
      ensures Valid() <==> Unused(Elements(models), old(ids), c, id)
    {
      var prev := ids[c];
      RekeyedExact(Elements(models), byId, ids, c, id);
      ids := ids[c := id];
      if prev != id {
        if prev.Some? { byId := byId - {Id(prev.value)}; }
        if id.Some? { byId := byId[Id(id.value) := c]; }
      }
    }

    /** The last part of `set`: the new order, or the new models spliced in. */
    method Install(met: seq<nat>, toAdd: seq<nat>, o: SetOptions)
      modifies this`models, this`length
      ensures length == |models|
      ensures models == Installed(old(models), met, toAdd, o)
    {
      if met != [] && o.add && o.remove {
        models := met;
      } else if toAdd != [] {
        models := Splice(models, toAdd, InsertionPoint(o.at, |models|));
      }
      length := |models|;
    }
  }

  lemma FirstPassSound(prior: seq<nat>, byId: Index, ids: Ids, next: nat, entries: seq<Entry>, add: bool)
    requires Distinct(prior) && Indexed(Elements(prior), byId, ids) && KnownIn(ids, entries)
    requires forall c :: c in ids ==> c < next
    ensures var p := ResolveAll(Pass([], [], [], byId, ids, next), entries, add);
            PassSound(prior, ids, p, entries, add) && (!add ==> p.toAdd == [])
  {
    var start := Pass([], [], [], byId, ids, next);
    StartSound(prior, byId, ids, next, add);
    assert forall c :: c in prior ==> c in Elements(prior);
    ResolveAllSound(prior, ids, start, entries, add);
    NothingAdded(start, entries, add);
  }

  lemma StaleKnown(prior: seq<nat>, p: Pass, stale: seq<nat>)
    requires Indexed(Elements(prior) + Elements(p.toAdd), p.byId, p.ids) && Distinct(prior)
    requires stale == Only(prior, p.met, false)
    ensures KnownIn(p.ids, AsEntries(stale))
  {
    OnlyElements(prior, p.met, false);
    forall i | 0 <= i < |stale| ensures stale[i] in p.ids {
      assert stale[i] in stale;
    }
  }

  /** The index left by `set`, stale members having been removed or not. */
  ghost function FinalMembers(prior: seq<nat>, p: Pass, o: SetOptions): Members
    requires Indexed(Elements(prior) + Elements(p.toAdd), p.byId, p.ids) && Distinct(prior)
  {
    StaleKnown(prior, p, Only(prior, p.met, false));
    if o.remove then RemovedAll(Members(prior, p.byId), p.ids, AsEntries(Only(prior, p.met, false)))
    else Members(prior, p.byId)
  }

  lemma SetIndexed(prior: seq<nat>, priorIds: Ids, p: Pass, entries: seq<Entry>, o: SetOptions)
    requires Distinct(prior) && PassSound(prior, priorIds, p, entries, o.add) && (!o.add ==> p.toAdd == [])
    ensures var final, models := FinalMembers(prior, p, o), SetModels(prior, p.met, p.toAdd, o);
            && Distinct(models) && Indexed(Elements(models), final.byId, p.ids)
            && final.models == (if o.remove then Only(prior, p.met, true) else prior)
            && (o.add && o.remove && p.met == [] ==> final.models == [] && p.toAdd == [])
  {
    var members := Elements(prior) + Elements(p.toAdd);
    var stale := Only(prior, p.met, false);
    OnlyElements(prior, p.met, false);
    OnlyElements(prior, p.met, true);
    if o.remove {
      StaleRemoved(prior, p, members);
      RemovedMembers(Members(prior, p.byId), members, p.ids, stale);
      OnlyStale(prior, p.met, stale);
      if !o.add { assert Elements(Only(prior, p.met, true)) == Elements(p.met); }
      if p.met == [] {
        EmptyFromElements(p.toAdd);
        EmptyFromElements(Only(prior, p.met, true));
      }
    } else {
      SplicedElements(prior, p.toAdd, InsertionPoint(o.at, |prior|));
    }
  }

  /** What is left and the first pass make up the new models, in agreement with the index left. */
  lemma InstalledSound(prior: seq<nat>, priorIds: Ids, p: Pass, entries: seq<Entry>, o: SetOptions)
    requires Distinct(prior) && PassSound(prior, priorIds, p, entries, o.add) && (!o.add ==> p.toAdd == [])
    ensures KnownIn(p.ids, AsEntries(Only(prior, p.met, false)))
    ensures var final := FinalMembers(prior, p, o);
            var models := Installed(final.models, p.met, p.toAdd, o);
            && models == SetModels(prior, p.met, p.toAdd, o)
            && Distinct(models) && Indexed(Elements(models), final.byId, p.ids)
  {
    StaleKnown(prior, p, Only(prior, p.met, false));
    SetIndexed(prior, priorIds, p, entries, o);
    InstalledModels(prior, FinalMembers(prior, p, o).models, p.met, p.toAdd, o);
  }

  lemma InstalledModels(prior: seq<nat>, left: seq<nat>, met: seq<nat>, toAdd: seq<nat>, o: SetOptions)
    requires left == (if o.remove then Only(prior, met, true) else prior) && (!o.add ==> toAdd == [])
    requires o.add && o.remove && met == [] ==> left == [] && toAdd == []
    ensures Installed(left, met, toAdd, o) == SetModels(prior, met, toAdd, o)
  {
  }

  lemma EmptyFromElements(s: seq<nat>)
    ensures (forall c :: c !in s) ==> s == []
  {
    if s != [] { assert s[0] in s; }
  }

  lemma SplicedElements(models: seq<nat>, insert: seq<nat>, p: nat)
    requires p <= |models| && Distinct(models) && Distinct(insert) && forall c :: c in insert ==> c !in models
    ensures Distinct(Spliced(models, insert, p))
    ensures Elements(Spliced(models, insert, p)) == Elements(models) + Elements(insert)
  {
    var a, b := models[..p], models[p..];
    assert models == a + b;
    DistinctParts(a, b);
    DistinctConcat(a, insert);
    DistinctConcat(a + insert, b);
    forall c ensures c in Spliced(models, insert, p) <==> c in models || c in insert {
      assert c in Spliced(models, insert, p) <==> c in a || c in insert || c in b;
    }
  }

  lemma DistinctConcat(a: seq<nat>, b: seq<nat>)
    requires Distinct(a) && Distinct(b) && forall c :: c in b ==> c !in a
    ensures Distinct(a + b)
  {
    forall i, j | 0 <= i < j < |a + b| ensures (a + b)[i] != (a + b)[j] {
      if i < |a| <= j { assert b[j - |a|] in b && a[i] in a; }
    }
  }

  lemma DistinctParts(a: seq<nat>, b: seq<nat>)
    requires Distinct(a + b)
    ensures Distinct(a) && Distinct(b) && forall c :: c in b ==> c !in a
  {
    forall i, j | 0 <= i < |a| && 0 <= j < |b| ensures a[i] != b[j] {
      assert (a + b)[i] == a[i] && (a + b)[|a| + j] == b[j];
    }
    forall i, j | 0 <= i < j < |a| ensures a[i] != a[j] { assert (a + b)[i] == a[i] && (a + b)[j] == a[j]; }
    forall i, j | 0 <= i < j < |b| ensures b[i] != b[j] { assert (a + b)[|a| + i] == b[i] && (a + b)[|a| + j] == b[j]; }
  }

  /** `indexOf` and `models.splice(index, 1)` */
  method SpliceOut(models: seq<nat>, c: nat) returns (left: seq<nat>)
    requires Distinct(models)
    ensures left == Without(models, c)
  {
    var index := 0;
    while index < |models| && models[index] != c
      invariant 0 <= index <= |models| && c !in models[..index]
    {
      index := index + 1;
    }
    if index < |models| {
      SplicedOut(models, index);
      left := models[..index] + models[index + 1..];
    } else {
      assert models[..index] == models;
      WithoutOnly(models, c);
      left := models;
    }
  }

  /** `splice` of this file: the tail is copied, then the new elements and the tail are written back. */
  method Splice(models: seq<nat>, insert: seq<nat>, p: nat) returns (spliced: seq<nat>)
    requires p <= |models|
    ensures spliced == Spliced(models, insert, p)
  {
    var tail := models[p..];
    spliced := models[..p];
    for i := 0 to |insert|
      invariant spliced == models[..p] + insert[..i]
    {
      spliced := spliced + [insert[i]];
    }
    for i := 0 to |tail|
      invariant spliced == models[..p] + insert + tail[..i]
    {
      spliced := spliced + [tail[i]];
    }
  }

  lemma {:induction false} NothingAdded(p: Pass, entries: seq<Entry>, add: bool)
    requires KnownIn(p.ids, entries)
    ensures !add ==> ResolveAll(p, entries, add).toAdd == p.toAdd
  {
    if entries != [] { NothingAdded(p, entries[..|entries| - 1], add); }
  }

  // ----- what `set` means

  /** What the entries stand for, with `add`: old models or new ones, one each for attributes without an id. */
  ghost predicate EntriesResolved(prior: seq<nat>, ids: Ids, p: Pass, entries: seq<Entry>) {
    && |p.became| == |entries|
    && (forall i :: 0 <= i < |entries| ==> EntryBecame(prior, ids, p, entries[i], p.became[i], true))
    && (forall i :: 0 <= i < |entries| ==> (p.became[i].None? ==> entries[i].Attrs? && !entries[i].valid))
    && (forall c :: c in p.met ==> c in prior || c in p.toAdd)
    && NewModels(ids, p, entries)
  }

  lemma AllResolved(prior: seq<nat>, byId: Index, ids: Ids, next: nat, entries: seq<Entry>)
    requires Distinct(prior) && Indexed(Elements(prior), byId, ids) && KnownIn(ids, entries)
    requires forall c :: c in ids ==> c < next
    ensures EntriesResolved(prior, ids, ResolveAll(Pass([], [], [], byId, ids, next), entries, true), entries)
  {
    FirstPassSound(prior, byId, ids, next, entries, true);
    IndexKnown(Elements(prior), byId, ids);
    ResolveAllNew(Pass([], [], [], byId, ids, next), entries);
    var p := ResolveAll(Pass([], [], [], byId, ids, next), entries, true);
    forall i | 0 <= i < |entries| ensures p.became[i].None? ==> entries[i].Attrs? && !entries[i].valid {
      assert EntryBecame(prior, ids, p, entries[i], p.became[i], true);
    }
  }

  lemma IndexKnown(members: set<nat>, byId: Index, ids: Ids)
    requires Indexed(members, byId, ids)
    ensures forall k :: k in byId ==> byId[k] in ids
  {
    forall k | k in byId ensures byId[k] in ids {
      match k {
        case Cid(c) =>
        case Id(i) => assert Id(i) in byId;
      }
    }
  }

  /** By default the models become exactly what the valid entries stand for, first occurrences only, in the order of the
      input. */
  lemma DefaultSetMeaning(prior: seq<nat>, byId: Index, ids: Ids, next: nat, entries: seq<Entry>, at: Option<int>)
    requires Distinct(prior) && Indexed(Elements(prior), byId, ids) && KnownIn(ids, entries)
    requires forall c :: c in ids ==> c < next
    ensures var p := ResolveAll(Pass([], [], [], byId, ids, next), entries, true);
            && EntriesResolved(prior, ids, p, entries)
            && SetModels(prior, p.met, p.toAdd, SetOptions(true, true, at)) == FirstOccurrences(p.became)
  {
    FirstPassSound(prior, byId, ids, next, entries, true);
    AllResolved(prior, byId, ids, next, entries);
  }

  /** With `remove: false` the old list stays, with the new models among those met spliced in, in their order, at the
      clamped position. */
  lemma AddMeaning(prior: seq<nat>, byId: Index, ids: Ids, next: nat, entries: seq<Entry>, at: Option<int>)
    requires Distinct(prior) && Indexed(Elements(prior), byId, ids) && KnownIn(ids, entries)
    requires forall c :: c in ids ==> c < next
    ensures var p := ResolveAll(Pass([], [], [], byId, ids, next), entries, true);
            var models := SetModels(prior, p.met, p.toAdd, SetOptions(true, false, at));
            var added := Only(FirstOccurrences(p.became), prior, false);
            var i := InsertionPoint(at, |prior|);
            && EntriesResolved(prior, ids, p, entries)
            && models == prior[..i] + added + prior[i..]
            && Only(models, prior, true) == prior
  {
    FirstPassSound(prior, byId, ids, next, entries, true);
    AllResolved(prior, byId, ids, next, entries);
    var p := ResolveAll(Pass([], [], [], byId, ids, next), entries, true);
    SplicedOnly(prior, p.toAdd, InsertionPoint(at, |prior|));
  }

  /** With `add: false` nothing new comes in: with `remove` the old models that some entry stands for stay, in their old
      order, and without it the list is as it was. */
  lemma PruneMeaning(prior: seq<nat>, byId: Index, ids: Ids, next: nat, entries: seq<Entry>, at: Option<int>, c: nat)
    requires Distinct(prior) && Indexed(Elements(prior), byId, ids) && KnownIn(ids, entries)
    requires (forall c :: c in ids ==> c < next) && c in ids
    ensures var p := ResolveAll(Pass([], [], [], byId, ids, next), entries, false);
            var pruned := SetModels(prior, p.met, p.toAdd, SetOptions(false, true, at));
            && SetModels(prior, p.met, p.toAdd, SetOptions(false, false, at)) == prior
            && pruned == Only(prior, p.met, true)
            && (c in pruned <==> c in prior && exists i :: 0 <= i < |entries| && StandsFor(ids, entries[i], c))
  {
    var start := Pass([], [], [], byId, ids, next);
    var p := ResolveAll(start, entries, false);
    FirstPassSound(prior, byId, ids, next, entries, false);
    NothingNew(start, entries);
    OnlyElements(prior, p.met, true);
    SplicedNothing(prior, InsertionPoint(at, |prior|));
    if c in prior { MetStandsFor(prior, ids, p, entries, c); }
  }

  lemma SplicedNothing(models: seq<nat>, i: nat)
    requires i <= |models|
    ensures Spliced(models, [], i) == models
  {
  }

  lemma {:induction false} NothingNew(p: Pass, entries: seq<Entry>)
    requires KnownIn(p.ids, entries)
    ensures ResolveAll(p, entries, false).ids == p.ids
  {
    if entries != [] { NothingNew(p, entries[..|entries| - 1]); }
  }

  lemma MetStandsFor(prior: seq<nat>, ids: Ids, p: Pass, entries: seq<Entry>, c: nat)
    requires PassSound(prior, ids, p, entries, false) && p.ids == ids && c in prior && c in ids
    ensures c in p.met <==> exists i :: 0 <= i < |entries| && StandsFor(ids, entries[i], c)
  {
    if c in p.met {
      var i := FirstPlace(p.became, c);
      assert EntryBecame(prior, ids, p, entries[i], p.became[i], false);
    }
    if i :| 0 <= i < |entries| && StandsFor(ids, entries[i], c) {
      assert EntryBecame(prior, ids, p, entries[i], p.became[i], false);
    }
  }

  lemma {:induction false} FirstPlace(became: seq<Option<nat>>, c: nat) returns (i: nat)
    requires c in FirstOccurrences(became)
    ensures i < |became| && became[i] == Some(c)
  {
    var n := |became| - 1;
    if became[n] == Some(c) {
      i := n;
    } else {
      i := FirstPlace(became[..n], c);
    }
  }

  lemma SplicedOnly(prior: seq<nat>, toAdd: seq<nat>, i: nat)
    requires i <= |prior| && forall c :: c in toAdd ==> c !in prior
    ensures Only(Spliced(prior, toAdd, i), prior, true) == prior
  {
    var a, b := prior[..i], prior[i..];
    assert a + b == prior;
    assert forall c :: c in a ==> c in prior;
    assert forall c :: c in b ==> c in prior;
    OnlyInserted(a, toAdd, b, prior);
  }

  lemma OnlyInserted(a: seq<nat>, insert: seq<nat>, b: seq<nat>, cs: seq<nat>)
    requires (forall c :: c in a ==> c in cs) && (forall c :: c in b ==> c in cs)
    requires forall c :: c in insert ==> c !in cs
    ensures Only(a + insert + b, cs, true) == a + b
  {
    OnlyConcat(a + insert, b, cs);
    OnlyConcat(a, insert, cs);
    assert Only(a, cs, true) == a by { OnlyAll(a, cs); }
    assert Only(b, cs, true) == b by { OnlyAll(b, cs); }
    assert Only(insert, cs, true) == [] by { OnlyMissing(insert, cs); }
    assert a + [] == a;
  }

  lemma {:induction false} OnlyConcat(a: seq<nat>, b: seq<nat>, cs: seq<nat>)
    ensures Only(a + b, cs, true) == Only(a, cs, true) + Only(b, cs, true)
  {
    if b == [] {
      assert a + b == a;
    } else {
      var n := |b| - 1;
      assert (a + b)[..|a| + n] == a + b[..n];
      OnlyConcat(a, b[..n], cs);
    }
  }

  lemma {:induction false} OnlyAll(s: seq<nat>, cs: seq<nat>)
    ensures (forall c :: c in s ==> c in cs) ==> Only(s, cs, true) == s
  {
    if s != [] {
      OnlyAll(s[..|s| - 1], cs);
      assert s == s[..|s| - 1] + [s[|s| - 1]];
    }
  }

  lemma {:induction false} OnlyMissing(s: seq<nat>, cs: seq<nat>)
    ensures (forall c :: c in s ==> c !in cs) ==> Only(s, cs, true) == []
  {
    if s != [] {
      OnlyMissing(s[..|s| - 1], cs);
      assert s == s[..|s| - 1] + [s[|s| - 1]];
    }
  }
}
