/** One pass of a firing callback list, while the functions it runs add and remove entries. */
module CallbackPass {
  import opened Options
  import opened Lists
  import opened Callbacks

  /** A firing list whose entries carry identities: `tags[i]` names the entry at position `i`, and `ran` lists the
      entries run so far. */
  datatype Pass<F, A> = Pass(s: State<F, A>, tags: seq<nat>, ran: seq<nat>, next: nat)

  datatype PassOp<F> = AddCall(fs: seq<F>) | RemoveCall(f: F) | RunNext

  function NewTags(n: nat, count: nat): (r: seq<nat>)
    ensures |r| == count && forall i :: 0 <= i < count ==> r[i] == n + i
  {
    seq(count, i requires 0 <= i < count => n + i)
  }

  /** The tags of the entries that `remove(f)` leaves. */
  function TagsWithout<F(==)>(list: seq<F>, tags: seq<nat>, f: F): (r: seq<nat>)
    requires |tags| == |list|
    ensures |r| == |Without(list, f)|
  {
    if list == [] then []
    else
      var n := |list| - 1;
      TagsWithout(list[..n], tags[..n], f) + if list[n] == f then [] else [tags[n]]
  }

  ghost predicate PassEnabled<F, A>(p: Pass<F, A>, op: PassOp<F>) {
    op.RunNext? ==> p.s.firing && -1 <= p.s.firingIndex && p.s.firingIndex + 1 < |Entries(p.s)| == |p.tags|
  }

  function PassStep<F(==), A>(p: Pass<F, A>, op: PassOp<F>): Pass<F, A>
    requires PassEnabled(p, op) && |p.tags| == |Entries(p.s)|
  {
    match op
    case AddCall(fs) =>
      var t := Added(p.s, fs);
      PushedExtends(Entries(p.s), p.s.flags.unique, fs);
      var count := |Entries(t)| - |Entries(p.s)|;
      p.(s := t, tags := p.tags + NewTags(p.next, count), next := p.next + count)
    case RemoveCall(f) =>
      p.(s := Removed(p.s, f), tags := TagsWithout(Entries(p.s), p.tags, f))
    case RunNext =>
      p.(s := Advanced(p.s), ran := p.ran + [p.tags[p.s.firingIndex + 1]])
  }

  lemma PushedExtends<F>(list: seq<F>, unique: bool, fs: seq<F>)
    ensures list <= Pushed(list, unique, fs)
    decreases |fs|
  {
  }

  ghost predicate Unrepeated(s: seq<nat>) {
    forall i, j :: 0 <= i < j < |s| ==> s[i] != s[j]
  }

  /** The elements of `ran` that are still in `tags`, in order. */
  ghost function Surviving(ran: seq<nat>, tags: seq<nat>): seq<nat> {
    if ran == [] then []
    else
      var n := |ran| - 1;
      Surviving(ran[..n], tags) + if ran[n] in tags then [ran[n]] else []
  }

  /** The entries up to the firing index are exactly the surviving entries already run, in the order they ran. */
  ghost predicate OnTrack<F, A>(p: Pass<F, A>) {
    && p.s.list.Some? && p.s.firing && |p.tags| == |p.s.list.value| && -1 <= p.s.firingIndex < |p.tags|
    && Unrepeated(p.tags) && Unrepeated(p.ran)
    && (forall t :: t in p.tags || t in p.ran ==> t < p.next)
    && p.tags[..p.s.firingIndex + 1] == Surviving(p.ran, p.tags)
  }

  // ----- adding

  lemma {:induction false} SurvivingExtended(ran: seq<nat>, tags: seq<nat>, more: seq<nat>)
    requires forall t :: t in more ==> t !in ran
    ensures Surviving(ran, tags + more) == Surviving(ran, tags)
  {
    if ran != [] {
      SurvivingExtended(ran[..|ran| - 1], tags, more);
      assert ran[|ran| - 1] !in more;
    }
  }

  lemma AddOnTrack<F, A>(p: Pass<F, A>, fs: seq<F>)
    requires OnTrack(p)
    ensures OnTrack(PassStep(p, AddCall(fs)))
  {
    PushedExtends(Entries(p.s), p.s.flags.unique, fs);
    var more := NewTags(p.next, |Pushed(Entries(p.s), p.s.flags.unique, fs)| - |p.tags|);
    assert PassStep(p, AddCall(fs)).tags == p.tags + more;
    forall t | t in more ensures p.next <= t < p.next + |more| && t !in p.ran && t !in p.tags {
      var i :| 0 <= i < |more| && more[i] == t;
    }
    UnrepeatedConcat(p.tags, more);
    SurvivingExtended(p.ran, p.tags, more);
    assert (p.tags + more)[..p.s.firingIndex + 1] == p.tags[..p.s.firingIndex + 1];
  }

  lemma UnrepeatedConcat(a: seq<nat>, b: seq<nat>)
    requires Unrepeated(a) && Unrepeated(b) && forall t :: t in b ==> t !in a
    ensures Unrepeated(a + b)
  {
    forall i, j | 0 <= i < j < |a + b| ensures (a + b)[i] != (a + b)[j] {
      if i < |a| <= j { assert b[j - |a|] in b && a[i] in a; }
    }
  }

  // ----- removing

  lemma {:induction false} TagsWithoutShape<F>(list: seq<F>, tags: seq<nat>, f: F)
    requires |tags| == |list| && Unrepeated(tags)
    ensures forall t :: t in TagsWithout(list, tags, f) ==> t in tags
    ensures forall i :: 0 <= i < |list| ==> (tags[i] in TagsWithout(list, tags, f) <==> list[i] != f)
    ensures Unrepeated(TagsWithout(list, tags, f))
  {
    if list != [] {
      var n := |list| - 1;
      TagsWithoutShape(list[..n], tags[..n], f);
      assert tags == tags[..n] + [tags[n]];
      assert tags[n] !in tags[..n];
      assert forall i :: 0 <= i < n ==> tags[i] == tags[..n][i] && list[i] == list[..n][i];
    }
  }

  /** Cutting the list at any position cuts what remains of it accordingly. */
  lemma {:induction false} TagsWithoutPrefix<F>(list: seq<F>, tags: seq<nat>, k: nat, f: F)
    requires |tags| == |list| && k <= |list|
    ensures TagsWithout(list[..k], tags[..k], f) <= TagsWithout(list, tags, f)
  {
    if k == |list| {
      assert list[..k] == list && tags[..k] == tags;
    } else {
      var n := |list| - 1;
      TagsWithoutPrefix(list[..n], tags[..n], k, f);
      assert list[..n][..k] == list[..k] && tags[..n][..k] == tags[..k];
    }
  }

  lemma {:induction false} CountedOff<F>(list: seq<F>, at: int, f: F)
    requires -1 <= at < |list|
    ensures CountUpTo(list, at, f) == at + 1 - |Without(list[..at + 1], f)|
  {
    if list != [] {
      var n := |list| - 1;
      if at == n {
        assert list[..at + 1] == list;
        CountedAll(list, at, f);
      } else {
        CountedOff(list[..n], at, f);
        assert list[..n][..at + 1] == list[..at + 1];
      }
    }
  }

  lemma {:induction false} CountedAll<F>(list: seq<F>, at: int, f: F)
    requires |list| <= at + 1
    ensures CountUpTo(list, at, f) == |list| - |Without(list, f)|
  {
    if list != [] { CountedAll(list[..|list| - 1], at, f); }
  }

  /** Survivors of the survivors. */
  lemma {:induction false} SurvivingTwice(ran: seq<nat>, tags: seq<nat>, kept: seq<nat>)
    requires forall t :: t in kept ==> t in tags
    ensures Surviving(ran, kept) == Surviving(Surviving(ran, tags), kept)
  {
    if ran != [] {
      var n := |ran| - 1;
      SurvivingTwice(ran[..n], tags, kept);
      var s := Surviving(ran[..n], tags);
      if ran[n] in tags {
        assert Surviving(ran, tags) == s + [ran[n]] && (s + [ran[n]])[..|s|] == s;
      } else {
        assert Surviving(ran, tags) == s;
      }
    }
  }

  lemma {:induction false} PrefixSurvives<F>(list: seq<F>, tags: seq<nat>, k: nat, f: F)
    requires |tags| == |list| && Unrepeated(tags) && k <= |list|
    ensures Surviving(tags[..k], TagsWithout(list, tags, f)) == TagsWithout(list[..k], tags[..k], f)
  {
    if k > 0 {
      PrefixSurvives(list, tags, k - 1, f);
      assert tags[k - 1] in TagsWithout(list, tags, f) <==> list[k - 1] != f by { TagsWithoutShape(list, tags, f); }
      assert tags[..k][..k - 1] == tags[..k - 1] && list[..k][..k - 1] == list[..k - 1];
    }
  }

  /** The list, its tags and the firing index after a removal. */
  lemma RemovalKeeps<F>(list: seq<F>, tags: seq<nat>, ran: seq<nat>, at: int, f: F)
    requires |tags| == |list| && -1 <= at < |list| && Unrepeated(tags) && tags[..at + 1] == Surviving(ran, tags)
    ensures var kept, at' := TagsWithout(list, tags, f), at - CountUpTo(list, at, f);
            && Unrepeated(kept) && (forall t :: t in kept ==> t in tags)
            && -1 <= at' < |kept| && kept[..at' + 1] == Surviving(ran, kept)
  {
    var k := at + 1;
    var kept, before := TagsWithout(list, tags, f), TagsWithout(list[..k], tags[..k], f);
    TagsWithoutShape(list, tags, f);
    TagsWithoutPrefix(list, tags, k, f);
    CountedOff(list, at, f);
    SurvivingTwice(ran, tags, kept);
    PrefixSurvives(list, tags, k, f);
    assert before <= kept && kept[..|before|] == before;
  }

  lemma RemoveOnTrack<F, A>(p: Pass<F, A>, f: F)
    requires OnTrack(p)
    ensures OnTrack(PassStep(p, RemoveCall(f)))
  {
    RemovalKeeps(p.s.list.value, p.tags, p.ran, p.s.firingIndex, f);
  }

  // ----- running

  lemma RunOnTrack<F, A>(p: Pass<F, A>)
    requires OnTrack(p) && PassEnabled(p, RunNext)
    ensures OnTrack(PassStep(p, RunNext))
  {
    var k := p.s.firingIndex + 1;
    var t := p.tags[k];
    assert t !in p.tags[..k];
    if t in p.ran { SurvivingKeeps(p.ran, p.tags, t); }
    UnrepeatedConcat(p.ran, [t]);
    assert (p.ran + [t])[..|p.ran|] == p.ran;
    assert p.tags[..k + 1] == p.tags[..k] + [t];
  }

  lemma {:induction false} SurvivingKeeps(ran: seq<nat>, tags: seq<nat>, t: nat)
    requires t in ran && t in tags
    ensures t in Surviving(ran, tags)
  {
    var n := |ran| - 1;
    if ran[n] != t { SurvivingKeeps(ran[..n], tags, t); }
  }

  // ----- whole passes

  ghost predicate Runnable<F, A>(p: Pass<F, A>, ops: seq<PassOp<F>>)
    requires |p.tags| == |Entries(p.s)|
    decreases |ops|
  {
    ops == [] || (PassEnabled(p, ops[0]) && Runnable(PassStep(p, ops[0]), ops[1..]))
  }

  function PassAll<F(==), A>(p: Pass<F, A>, ops: seq<PassOp<F>>): Pass<F, A>
    requires |p.tags| == |Entries(p.s)| && Runnable(p, ops)
    decreases |ops|
  {
    if ops == [] then p else PassAll(PassStep(p, ops[0]), ops[1..])
  }

  /** Whatever is added or removed on the way, nothing runs twice, and when the pass is over every entry that is
      still in the list has run. */
  lemma {:induction false} NothingSkipped<F, A>(p: Pass<F, A>, ops: seq<PassOp<F>>)
    requires OnTrack(p) && Runnable(p, ops)
    ensures var q := PassAll(p, ops);
            && OnTrack(q)
            && (q.s.firingIndex + 1 == |q.tags| ==> q.tags == Surviving(q.ran, q.tags))
    decreases |ops|
  {
    if ops == [] {
      assert p.tags[..|p.tags|] == p.tags;
    } else {
      match ops[0] {
        case AddCall(fs) => AddOnTrack(p, fs);
        case RemoveCall(f) => RemoveOnTrack(p, f);
        case RunNext => RunOnTrack(p);
      }
      NothingSkipped(PassStep(p, ops[0]), ops[1..]);
    }
  }

  /** `fire` starts a pass on track. */
  lemma StartOnTrack<F, A>(s: State<F, A>)
    requires s.list.Some? && s.queue != [] && s.firingIndex == -1
    ensures var l := s.list.value; OnTrack(Pass(Started(s), NewTags(0, |l|), [], |l|))
  {
  }

  lemma {:induction false} SurvivingAll(ran: seq<nat>, tags: seq<nat>)
    requires forall t :: t in ran ==> t in tags
    ensures Surviving(ran, tags) == ran
  {
    if ran != [] {
      var n := |ran| - 1;
      assert ran == ran[..n] + [ran[n]];
      SurvivingAll(ran[..n], tags);
    }
  }

  /** So does `add` on a list that remembers arguments: the entries before the new ones count as already run. */
  lemma AddStartsOnTrack<F, A>(s: State<F, A>, fs: seq<F>)
    requires AddFires(s)
    ensures Added(s, fs).queue != []
    ensures var t := Started(Added(s, fs));
            OnTrack(Pass(t, NewTags(0, |Entries(t)|), NewTags(0, |Entries(s)|), |Entries(t)|))
  {
    var t := Started(Added(s, fs));
    PushedExtends(Entries(s), s.flags.unique, fs);
    var ran, tags := NewTags(0, |Entries(s)|), NewTags(0, |Entries(t)|);
    assert tags[..|ran|] == ran;
    forall t | t in ran ensures t in tags {
      assert tags[t] == t;
    }
    SurvivingAll(ran, tags);
  }
}
