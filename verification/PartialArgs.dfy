/** lodash partial application: composing stored partial arguments, placeholders and call arguments, and merging the
    stored arguments of nested partial applications into one. */
module PartialArgs {
  import opened Options

  /** An element of an argument list; `Hole` is the placeholder. */
  datatype Arg<+T> = Undefined | Value(v: T) | Hole

  // ----- what composing means

  function Holes<T>(p: seq<Arg<T>>): nat {
    if p == [] then 0 else (if p[0].Hole? then 1 else 0) + Holes(p[1..])
  }

  /** The holes of `p` are filled from the left with `args`; what is left of `args` follows. */
  function Fill<T>(p: seq<Arg<T>>, args: seq<Arg<T>>): (r: seq<Arg<T>>)
    ensures |r| == |p| + Surplus(p, args)
    decreases |p|
  {
    if p == [] then args
    else if !p[0].Hole? then [p[0]] + Fill(p[1..], args)
    else if args == [] then [Undefined] + Fill(p[1..], [])
    else [args[0]] + Fill(p[1..], args[1..])
  }

  /** The number of arguments that find no hole. */
  function Surplus<T>(p: seq<Arg<T>>, args: seq<Arg<T>>): nat {
    if |args| > Holes(p) then |args| - Holes(p) else 0
  }

  /** For `partialRight`: surplus arguments go first, the last ones fill the holes. */
  function FillRight<T>(p: seq<Arg<T>>, args: seq<Arg<T>>): (r: seq<Arg<T>>)
    ensures |r| == |p| + Surplus(p, args)
  {
    var k := Surplus(p, args);
    args[..k] + Fill(p, args[k..])
  }

  // ----- element by element

  /** The positions of the holes, as `replaceHolders` lists them. */
  function HoldersOf<T>(p: seq<Arg<T>>): (h: seq<nat>)
    ensures |h| == HolesBefore(p, |p|)
    ensures forall i :: 0 <= i < |h| ==> h[i] < |p| && p[h[i]].Hole? && HolesBefore(p, h[i]) == i
  {
    if p == [] then []
    else
      var n := |p| - 1;
      PrefixHoles(p);
      HoldersOf(p[..n]) + if p[n].Hole? then [n] else []
  }

  /** The number of holes among the first `n` elements. */
  function HolesBefore<T>(p: seq<Arg<T>>, n: nat): nat
    requires n <= |p|
  {
    if n == 0 then 0 else HolesBefore(p, n - 1) + if p[n - 1].Hole? then 1 else 0
  }

  lemma {:induction false} PrefixHolesAt<T>(p: seq<Arg<T>>, k: nat, n: nat)
    requires n <= k <= |p|
    ensures HolesBefore(p[..k], n) == HolesBefore(p, n)
  {
    if n > 0 { PrefixHolesAt(p, k, n - 1); }
  }

  lemma PrefixHoles<T>(p: seq<Arg<T>>)
    requires p != []
    ensures forall n :: 0 <= n <= |p| - 1 ==> HolesBefore(p[..|p| - 1], n) == HolesBefore(p, n)
  {
    forall n | 0 <= n <= |p| - 1 ensures HolesBefore(p[..|p| - 1], n) == HolesBefore(p, n) {
      PrefixHolesAt(p, |p| - 1, n);
    }
  }

  lemma {:induction false} HolesShift<T>(p: seq<Arg<T>>, n: nat)
    requires p != [] && n < |p|
    ensures HolesBefore(p, n + 1) == (if p[0].Hole? then 1 else 0) + HolesBefore(p[1..], n)
  {
    if n > 0 { HolesShift(p, n - 1); }
  }

  lemma {:induction false} HolesInAll<T>(p: seq<Arg<T>>)
    ensures Holes(p) == HolesBefore(p, |p|)
  {
    if p != [] {
      HolesInAll(p[1..]);
      HolesShift(p, |p| - 1);
    }
  }

  function At<T>(args: seq<Arg<T>>, i: nat): Arg<T> {
    if i < |args| then args[i] else Undefined
  }

  /** Every position of a filled list. */
  lemma {:induction false} FillAt<T>(p: seq<Arg<T>>, args: seq<Arg<T>>, j: nat)
    requires j < |p|
    ensures Fill(p, args)[j] == if p[j].Hole? then At(args, HolesBefore(p, j)) else p[j]
    decreases |p|
  {
    var rest := if !p[0].Hole? || args == [] then args else args[1..];
    assert p == [p[0]] + p[1..];
    FillCons(p[0], p[1..], args);
    if j > 0 {
      FillAt(p[1..], rest, j - 1);
      HolesShift(p, j - 1);
    }
  }

  lemma {:induction false} FillTail<T>(p: seq<Arg<T>>, args: seq<Arg<T>>)
    ensures Fill(p, args)[|p|..] == args[|args| - Surplus(p, args)..]
    decreases |p|
  {
    if p != [] {
      assert p == [p[0]] + p[1..];
      FillCons(p[0], p[1..], args);
      FillTail(p[1..], if !p[0].Hole? || args == [] then args else args[1..]);
    }
  }

  // ----- the loops

  /** `replaceHolders` */
  method ReplaceHolders<T>(p: seq<Arg<T>>) returns (result: seq<nat>)
    ensures result == HoldersOf(p)
  {
    result := [];
    for index := 0 to |p|
      invariant result == HoldersOf(p[..index])
    {
      assert p[..index + 1][..index] == p[..index];
      if p[index].Hole? { result := result + [index]; }
    }
    assert p[..|p|] == p;
  }

  /** The partials are copied to `offset`, and their holes receive the arguments, the k-th hole the k-th argument. */
  method FillHolders<T>(result: array<Arg<T>>, offset: nat, partials: seq<Arg<T>>, holders: seq<nat>, args: seq<Arg<T>>)
    requires holders == HoldersOf(partials) && offset + |partials| <= result.Length
    modifies result
    ensures forall j :: 0 <= j < result.Length && !(offset <= j < offset + |partials|) ==> result[j] == old(result[j])
    ensures forall j :: offset <= j < offset + |partials| ==>
              result[j] == FilledAt(partials, args, |holders|, j - offset)
  {
    CopyTo(result, offset, partials);
    HoldersDistinct(partials);
    for k := 0 to |holders|
      invariant forall j :: 0 <= j < result.Length && !(offset <= j < offset + |partials|) ==>
                  result[j] == old(result[j])
      invariant forall j :: offset <= j < offset + |partials| ==> result[j] == FilledAt(partials, args, k, j - offset)
    {
      result[offset + holders[k]] := At(args, k);
    }
  }

  lemma FilledIsFill<T>(p: seq<Arg<T>>, args: seq<Arg<T>>)
    ensures forall j :: 0 <= j < |p| ==> FilledAt(p, args, |HoldersOf(p)|, j) == Fill(p, args)[j]
  {
    forall j | 0 <= j < |p| ensures FilledAt(p, args, |HoldersOf(p)|, j) == Fill(p, args)[j] {
      HolesGrow(p, j, |p|);
      FillAt(p, args, j);
    }
  }

  /** Position `j` once the first `k` holes are filled. */
  function FilledAt<T>(p: seq<Arg<T>>, args: seq<Arg<T>>, k: nat, j: nat): Arg<T>
    requires j < |p|
  {
    if p[j].Hole? && HolesBefore(p, j) < k then At(args, HolesBefore(p, j)) else p[j]
  }

  lemma {:induction false} HolesGrow<T>(p: seq<Arg<T>>, i: nat, j: nat)
    requires i < j <= |p|
    ensures HolesBefore(p, j) >= HolesBefore(p, i) + if p[i].Hole? then 1 else 0
  {
    if i < j - 1 { HolesGrow(p, i, j - 1); }
  }

  /** Every hole is listed exactly once. */
  lemma HoldersDistinct<T>(p: seq<Arg<T>>)
    ensures forall j :: 0 <= j < |p| && p[j].Hole? ==>
              HolesBefore(p, j) < |HoldersOf(p)| && HoldersOf(p)[HolesBefore(p, j)] == j
  {
    forall j | 0 <= j < |p| && p[j].Hole?
      ensures HolesBefore(p, j) < |HoldersOf(p)| && HoldersOf(p)[HolesBefore(p, j)] == j
    {
      HolesGrow(p, j, |p|);
      var i := HoldersOf(p)[HolesBefore(p, j)];
      if i < j { HolesGrow(p, i, j); } else if j < i { HolesGrow(p, j, i); }
    }
  }

  /** The copying loops of both: `values` go to `result` from `offset` on. */
  method CopyTo<T>(result: array<Arg<T>>, offset: nat, values: seq<Arg<T>>)
    requires offset + |values| <= result.Length
    modifies result
    ensures forall j :: 0 <= j < result.Length ==>
              result[j] == if offset <= j < offset + |values| then values[j - offset] else old(result[j])
  {
    for i := 0 to |values|
      invariant forall j :: 0 <= j < result.Length ==>
                  result[j] == if offset <= j < offset + i then values[j - offset] else old(result[j])
    {
      result[offset + i] := values[i];
    }
  }

  /** `composeArgs` */
  method ComposeArgs<T>(args: seq<Arg<T>>, partials: seq<Arg<T>>, holders: seq<nat>) returns (r: seq<Arg<T>>)
    requires holders == HoldersOf(partials)
    ensures r == Fill(partials, args)
  {
    var argsLength := if |args| > |holders| then |args| - |holders| else 0;
    var leftLength := |partials|;
    var result := new Arg<T>[leftLength + argsLength];
    var rest := args[|args| - argsLength..];
    FillHolders(result, 0, partials, holders, args);
    CopyTo(result, leftLength, rest);
    r := result[..];
    ComposedIsFill(r, partials, args, rest);
  }

  lemma ComposedIsFill<T>(r: seq<Arg<T>>, p: seq<Arg<T>>, args: seq<Arg<T>>, rest: seq<Arg<T>>)
    requires rest == (if |args| > |HoldersOf(p)| then args[|HoldersOf(p)|..] else args[|args|..])
    requires |r| == |p| + |rest| && forall j :: |p| <= j < |r| ==> r[j] == rest[j - |p|]
    requires forall j :: 0 <= j < |p| ==> r[j] == FilledAt(p, args, |HoldersOf(p)|, j)
    ensures r == Fill(p, args)
  {
    HolesInAll(p);
    FillTail(p, args);
    FilledIsFill(p, args);
    var all := Fill(p, args);
    assert forall j :: |p| <= j < |all| ==> all[j] == all[|p|..][j - |p|];
  }

  /** `composeArgsRight` */
  method ComposeArgsRight<T>(args: seq<Arg<T>>, partials: seq<Arg<T>>, holders: seq<nat>) returns (r: seq<Arg<T>>)
    requires holders == HoldersOf(partials)
    ensures r == FillRight(partials, args)
  {
    var argsLength := if |args| > |holders| then |args| - |holders| else 0;
    var result := new Arg<T>[argsLength + |partials|];
    var front, own := args[..argsLength], args[argsLength..];
    CopyTo(result, 0, front);
    FillHolders(result, argsLength, partials, holders, own);
    r := result[..];
    ComposedIsFillRight(r, partials, args, front, own);
  }

  lemma ComposedIsFillRight<T>(r: seq<Arg<T>>, p: seq<Arg<T>>, args: seq<Arg<T>>, front: seq<Arg<T>>,
                               own: seq<Arg<T>>)
    requires args == front + own && |front| == if |args| > |HoldersOf(p)| then |args| - |HoldersOf(p)| else 0
    requires |r| == |front| + |p| && forall j :: 0 <= j < |front| ==> r[j] == front[j]
    requires forall j :: |front| <= j < |r| ==> r[j] == FilledAt(p, own, |HoldersOf(p)|, j - |front|)
    ensures r == FillRight(p, args)
  {
    HolesInAll(p);
    FilledIsFill(p, own);
    assert args[..|front|] == front && args[|front|..] == own;
  }

  // ----- merging two levels of partial arguments

  lemma {:induction false} HolesOfConcat<T>(p: seq<Arg<T>>, q: seq<Arg<T>>)
    ensures Holes(p + q) == Holes(p) + Holes(q)
  {
    if p == [] {
      assert p + q == q;
    } else {
      assert (p + q)[1..] == p[1..] + q;
      HolesOfConcat(p[1..], q);
    }
  }

  /** The holes left after filling: those of the arguments, and those that got no argument are gone. */
  lemma {:induction false} HolesOfFill<T>(p: seq<Arg<T>>, args: seq<Arg<T>>)
    ensures Holes(Fill(p, args)) == Holes(args)
    decreases |p|
  {
    if p != [] {
      HolesOfFill(p[1..], if !p[0].Hole? || args == [] then args else args[1..]);
    }
  }

  lemma {:induction false} FillConcat<T>(p: seq<Arg<T>>, q: seq<Arg<T>>, a: seq<Arg<T>>, b: seq<Arg<T>>)
    requires |a| <= Holes(p) && (|a| < Holes(p) ==> b == [])
    ensures Fill(p + q, a + b) == Fill(p, a) + Fill(q, b)
    decreases |p|
  {
    if p == [] {
      assert p + q == q && a + b == b;
    } else {
      var x, t := p[0], p[1..];
      assert p == [x] + t;
      Assoc([x], t, q);
      var rest := if x.Hole? && a != [] then a[1..] else a;
      assert x.Hole? && a != [] ==> (a + b)[1..] == rest + b;
      FillCons(x, t, a);
      FillCons(x, t + q, a + b);
      FillConcat(t, q, rest, b);
      Assoc([Fill(p, a)[0]], Fill(t, rest), Fill(q, b));
    }
  }

  lemma FillCons<T>(x: Arg<T>, p: seq<Arg<T>>, args: seq<Arg<T>>)
    ensures Fill([x] + p, args) == [if !x.Hole? then x else if args == [] then Undefined else args[0]]
                                   + Fill(p, if x.Hole? && args != [] then args[1..] else args)
  {
    assert ([x] + p)[1..] == p;
  }

  lemma Assoc<T>(a: seq<T>, b: seq<T>, c: seq<T>)
    ensures (a + b) + c == a + (b + c)
  {
  }

  /** The outer partials fill every hole of the inner ones. */
  predicate Covers<T>(outer: seq<Arg<T>>, inner: seq<Arg<T>>) {
    |outer| >= Holes(inner)
  }

  /** `_.partial` of `_.partial`: filling the merged partials delivers what filling twice delivers. */
  lemma {:induction false} MergedLeft<T>(inner: seq<Arg<T>>, outer: seq<Arg<T>>, args: seq<Arg<T>>)
    requires Covers(outer, inner)
    ensures Fill(Fill(inner, outer), args) == Fill(inner, Fill(outer, args))
    decreases |inner|
  {
    if inner != [] {
      if inner[0].Hole? {
        var given := Fill(outer, args);
        var rest := if !outer[0].Hole? || args == [] then args else args[1..];
        assert given == [given[0]] + Fill(outer[1..], rest);
        assert Fill(inner, outer) == [outer[0]] + Fill(inner[1..], outer[1..]);
        assert Fill(Fill(inner, outer), args) == [given[0]] + Fill(Fill(inner[1..], outer[1..]), rest);
        MergedLeft(inner[1..], outer[1..], rest);
      } else {
        MergedLeft(inner[1..], outer, args);
      }
    }
  }

  lemma SplitArgs<T>(args: seq<Arg<T>>, k: nat) returns (a: seq<Arg<T>>, b: seq<Arg<T>>)
    ensures args == a + b && |a| <= k && (|a| < k ==> b == [])
  {
    var c := if |args| <= k then |args| else k;
    a, b := args[..c], args[c..];
  }

  lemma FillSurplus<T>(p: seq<Arg<T>>, front: seq<Arg<T>>, own: seq<Arg<T>>)
    requires |own| <= Holes(p) && (front != [] ==> |own| == Holes(p))
    ensures FillRight(p, front + own) == front + Fill(p, own)
  {
  }

  /** Filling two lists on end from the right, when there are no more arguments than holes after the surplus. */
  lemma FillRightConcat<T>(p: seq<Arg<T>>, q: seq<Arg<T>>, front: seq<Arg<T>>, a: seq<Arg<T>>, b: seq<Arg<T>>)
    requires |a| <= Holes(p) && |b| <= Holes(q) && (|a| < Holes(p) ==> b == [])
    requires front != [] ==> |a| == Holes(p) && |b| == Holes(q)
    ensures FillRight(p + q, front + a + b) == front + Fill(p, a) + Fill(q, b)
  {
    HolesOfConcat(p, q);
    FillConcat(p, q, a, b);
    Assoc(front, a, b);
    Assoc(front, Fill(p, a), Fill(q, b));
    FillSurplus(p + q, front, a + b);
  }

  /** The same for `_.partialRight` of `_.partialRight`. */
  lemma MergedRight<T>(inner: seq<Arg<T>>, outer: seq<Arg<T>>, args: seq<Arg<T>>)
    requires Covers(outer, inner)
    ensures FillRight(FillRight(inner, outer), args) == FillRight(inner, FillRight(outer, args))
  {
    var k := Surplus(inner, outer);
    var first, last := outer[..k], outer[k..];
    HolesOfConcat(first, last);
    assert outer == first + last;
    HolesOfFill(inner, last);
    var m := Surplus(outer, args);
    var front := args[..m];
    var a, b := SplitArgs(args[m..], Holes(first));
    assert args == front + a + b;
    FillRightConcat(first, last, front, a, b);
    FillRightConcat(first, Fill(inner, last), front, a, b);
    MergedLeft(inner, last, b);
    FillSurplus(inner, front + Fill(first, a), Fill(last, b));
  }

  /** With too few outer partials one argument more than the outer holes is swallowed by the nested calls. */
  lemma UncoveredDiffers<T>(inner: seq<Arg<T>>, outer: seq<Arg<T>>, args: seq<Arg<T>>)
    requires !Covers(outer, inner) && |args| == Holes(outer) + 1
    ensures |Fill(Fill(inner, outer), args)| == |inner| + 1 && |Fill(inner, Fill(outer, args))| == |inner|
    ensures |FillRight(FillRight(inner, outer), args)| == |inner| + 1
    ensures |FillRight(inner, FillRight(outer, args))| == |inner|
  {
    HolesOfFill(inner, outer);
    assert FillRight(inner, outer) == Fill(inner, outer) by {
      assert outer[..0] == [] && outer[0..] == outer;
    }
  }

  /** One side: merging is safe for every call exactly when the outer partials cover the inner holes. */
  lemma MergeExact<T>(inner: seq<Arg<T>>, outer: seq<Arg<T>>)
    ensures (forall args :: Fill(Fill(inner, outer), args) == Fill(inner, Fill(outer, args))) <==> Covers(outer, inner)
    ensures (forall args :: FillRight(FillRight(inner, outer), args) == FillRight(inner, FillRight(outer, args)))
            <==> Covers(outer, inner)
  {
    if Covers(outer, inner) {
      forall args: seq<Arg<T>> ensures Fill(Fill(inner, outer), args) == Fill(inner, Fill(outer, args)) {
        MergedLeft(inner, outer, args);
      }
      forall args: seq<Arg<T>>
        ensures FillRight(FillRight(inner, outer), args) == FillRight(inner, FillRight(outer, args))
      {
        MergedRight(inner, outer, args);
      }
    } else {
      var args: seq<Arg<T>> := seq(Holes(outer) + 1, _ => Undefined);
      UncoveredDiffers(inner, outer, args);
    }
  }

  // ----- both sides of a wrapper

  type Partials<T> = Option<seq<Arg<T>>>

  function FillLeftSide<T>(p: Partials<T>, args: seq<Arg<T>>): seq<Arg<T>> {
    if p.Some? then Fill(p.value, args) else args
  }

  function FillRightSide<T>(p: Partials<T>, args: seq<Arg<T>>): seq<Arg<T>> {
    if p.Some? then FillRight(p.value, args) else args
  }

  /** What a wrapper without `ary`, `rearg` and currying hands to its function. */
  function Delivered<T>(left: Partials<T>, right: Partials<T>, args: seq<Arg<T>>): seq<Arg<T>> {
    FillRightSide(right, FillLeftSide(left, args))
  }

  function MergedLeftSide<T>(inner: Partials<T>, outer: Partials<T>): Partials<T> {
    if inner.Some? && outer.Some? then Some(Fill(inner.value, outer.value)) else if inner.Some? then inner else outer
  }

  function MergedRightSide<T>(inner: Partials<T>, outer: Partials<T>): Partials<T> {
    if inner.Some? && outer.Some? then Some(FillRight(inner.value, outer.value))
    else if inner.Some? then inner
    else outer
  }

  predicate SideCovers<T>(outer: Partials<T>, inner: Partials<T>) {
    outer.Some? && inner.Some? ==> Covers(outer.value, inner.value)
  }

  // ----- mergeData

  /** The bits of a bitmask, lowest first; a bitmask is the set of its bits. */
  datatype Flag = Bind | BindKey | CurryBound | Curry | CurryRight | Partial | PartialRight | Ary | Rearg

  predicate HoldersFit<T>(p: Partials<T>, holders: seq<nat>) {
    p.Some? ==> holders == HoldersOf(p.value)
  }

  method MergeLeft<T>(partials: Partials<T>, holders: seq<nat>, value: Partials<T>, valueHolders: seq<nat>)
    returns (p: Partials<T>, h: seq<nat>)
    requires HoldersFit(partials, holders) && HoldersFit(value, valueHolders)
    ensures p == MergedLeftSide(value, partials) && HoldersFit(p, h)
  {
    p, h := partials, holders;
    if value.Some? {
      if partials.Some? {
        var composed := ComposeArgs(partials.value, value.value, valueHolders);
        h := ReplaceHolders(composed);
        p := Some(composed);
      } else {
        p, h := value, valueHolders;
      }
    }
  }

  method MergeRight<T>(partials: Partials<T>, holders: seq<nat>, value: Partials<T>, valueHolders: seq<nat>)
    returns (p: Partials<T>, h: seq<nat>)
    requires HoldersFit(partials, holders) && HoldersFit(value, valueHolders)
    ensures p == MergedRightSide(value, partials) && HoldersFit(p, h)
  {
    p, h := partials, holders;
    if value.Some? {
      if partials.Some? {
        var composed := ComposeArgsRight(partials.value, value.value, valueHolders);
        h := ReplaceHolders(composed);
        p := Some(composed);
      } else {
        p, h := value, valueHolders;
      }
    }
  }

  /** The metadata array of a wrapper; `holders` goes with `partials`, `holdersRight` with `partialsRight`. */
  class WrapperData<F, T> {
    var func: F
    var bitmask: set<Flag>
    var thisArg: Arg<T>
    var partials: Partials<T>
    var holders: seq<nat>
    var partialsRight: Partials<T>
    var holdersRight: seq<nat>
    var argPos: Option<seq<nat>>
    var ary: Option<nat>
    var arity: Option<nat>

    constructor (func: F, bitmask: set<Flag>, thisArg: Arg<T>, partials: Partials<T>, holders: seq<nat>,
                 partialsRight: Partials<T>,
                 holdersRight: seq<nat>, argPos: Option<seq<nat>>, ary: Option<nat>, arity: Option<nat>)
      ensures this.func == func && this.bitmask == bitmask && this.thisArg == thisArg && this.partials == partials
      ensures this.holders == holders && this.partialsRight == partialsRight && this.holdersRight == holdersRight
      ensures this.argPos == argPos && this.ary == ary && this.arity == arity
    {
      this.func, this.bitmask, this.thisArg := func, bitmask, thisArg;
      this.partials, this.holders := partials, holders;
      this.partialsRight, this.holdersRight := partialsRight, holdersRight;
      this.argPos, this.ary, this.arity := argPos, ary, arity;
    }

    /** The holder lists are the positions of the placeholders, and the flags come with their data. */
    ghost predicate Valid()
      reads this
    {
      && HoldersFit(partials, holders)
      && HoldersFit(partialsRight, holdersRight)
      && (Ary in bitmask ==> ary.Some?)
      && (Rearg in bitmask ==> argPos.Some?)
    }

    /** Whether the metadata of the wrapped function can be merged into this one. */
    predicate Mergeable(source: WrapperData<F, T>)
      requires Valid() && source.Valid()
      reads this, source
    {
      || (Ary !in bitmask + source.bitmask && Rearg !in bitmask + source.bitmask)
      || (source.bitmask == {Ary} && bitmask == {Curry})
      || (source.bitmask == {Ary} && bitmask == {Rearg} && |argPos.value| <= source.ary.value)
      || (source.bitmask == {Ary, Rearg} && bitmask == {Curry})
    }

    /** `mergeData` */
    method MergeData(source: WrapperData<F, T>)
      requires source != this && Valid() && source.Valid()
      modifies this
      ensures Valid()
      ensures !old(Mergeable(source)) ==> unchanged(this)
      ensures old(Mergeable(source)) ==> Absorbed(source, old(bitmask), old(thisArg), old(partials), old(partialsRight))
      ensures old(Mergeable(source)) ==> AbsorbedArity(source, old(argPos), old(ary), old(arity))
    {
      if Mergeable(source) {
        Absorb(source);
      }
    }

    ghost predicate Absorbed(source: WrapperData<F, T>, oldMask: set<Flag>, oldThis: Arg<T>, left: Partials<T>,
                             right: Partials<T>)
      reads this, source
    {
      && func == source.func
      && partials == MergedLeftSide(source.partials, left)
      && partialsRight == MergedRightSide(source.partialsRight, right)
      && bitmask == NewBitmask(oldMask, source.bitmask)
      && thisArg == (if Bind in source.bitmask then source.thisArg else oldThis)
    }

    ghost predicate AbsorbedArity(source: WrapperData<F, T>, oldPos: Option<seq<nat>>, oldAry: Option<nat>,
                                  oldArity: Option<nat>)
      requires source.Valid()
      reads this, source
    {
      && argPos == (if source.argPos.Some? then source.argPos else oldPos)
      && ary == SmallerAry(oldAry, source.ary, source.bitmask)
      && arity == (if oldArity.Some? then oldArity else source.arity)
    }

    method Absorb(source: WrapperData<F, T>)
      requires source != this && Valid() && source.Valid()
      modifies this
      ensures Valid()
      ensures Absorbed(source, old(bitmask), old(thisArg), old(partials), old(partialsRight))
      ensures AbsorbedArity(source, old(argPos), old(ary), old(arity))
    {
      AbsorbFlags(source);
      AbsorbArity(source);
      partials, holders := MergeLeft(partials, holders, source.partials, source.holders);
      partialsRight, holdersRight := MergeRight(partialsRight, holdersRight, source.partialsRight, source.holdersRight);
    }

    method AbsorbFlags(source: WrapperData<F, T>)
      requires source != this
      modifies this`func, this`bitmask, this`thisArg
      ensures func == source.func && bitmask == NewBitmask(old(bitmask), source.bitmask)
      ensures thisArg == if Bind in source.bitmask then source.thisArg else old(thisArg)
    {
      var newBitmask := bitmask + source.bitmask;
      if Bind in source.bitmask {
        thisArg := source.thisArg;
        newBitmask := newBitmask + if Bind in bitmask then {} else {CurryBound};
      }
      func := source.func;
      bitmask := newBitmask;
    }

    method AbsorbArity(source: WrapperData<F, T>)
      requires source != this && source.Valid()
      modifies this`argPos, this`ary, this`arity
      ensures AbsorbedArity(source, old(argPos), old(ary), old(arity))
    {
      if source.argPos.Some? {
        argPos := source.argPos;
      }
      if Ary in source.bitmask {
        ary := if ary.None? || source.ary.value < ary.value then source.ary else ary;
      }
      if arity.None? {
        arity := source.arity;
      }
    }

    /** `createHybridWrapper`, as far as it composes arguments */
    method Compose(args: seq<Arg<T>>) returns (r: seq<Arg<T>>)
      requires Valid()
      ensures r == Delivered(partials, partialsRight, args)
    {
      r := args;
      if partials.Some? { r := ComposeArgs(r, partials.value, holders); }
      if partialsRight.Some? { r := ComposeArgsRight(r, partialsRight.value, holdersRight); }
    }
  }

  function NewBitmask(bitmask: set<Flag>, source: set<Flag>): set<Flag> {
    bitmask + source + if Bind in source && Bind !in bitmask then {CurryBound} else {}
  }

  function SmallerAry(ary: Option<nat>, source: Option<nat>, bitmask: set<Flag>): Option<nat>
    requires Ary in bitmask ==> source.Some?
  {
    if Ary !in bitmask then ary
    else if ary.None? || source.value < ary.value then source
    else ary
  }

  /** The merged wrapper has the flags of both, and knows when a bound function is being curried. */
  lemma BitmaskMeaning(bitmask: set<Flag>, source: set<Flag>, flag: Flag)
    ensures flag in NewBitmask(bitmask, source) <==>
            flag in bitmask || flag in source || (flag == CurryBound && Bind in source && Bind !in bitmask)
  {
  }

  /** The arguments that a wrapper with `ary` lets through. */
  function Capped<T>(ary: Option<nat>, args: seq<Arg<T>>): seq<Arg<T>> {
    if ary.Some? && ary.value < |args| then args[..ary.value] else args
  }

  /** The merged wrapper lets through what the outer and then the inner one would. */
  lemma SmallerAryMeaning<T>(ary: Option<nat>, source: Option<nat>, bitmask: set<Flag>, args: seq<Arg<T>>)
    requires Ary in bitmask ==> source.Some?
    ensures Capped(SmallerAry(ary, source, bitmask), args) ==
            if Ary in bitmask then Capped(source, Capped(ary, args)) else Capped(ary, args)
  {
  }
}
