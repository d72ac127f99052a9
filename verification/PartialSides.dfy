/** lodash partial application from both sides: when merged left and right partials deliver what nested wrappers
    deliver. */
module PartialSides {
  import opened Options
  import opened PartialArgs

  // ----- when the two sides do not compete for arguments

  predicate Pure<T>(p: seq<Arg<T>>) {
    Holes(p) == |p|
  }

  /** The holes before the last value; none in a list without values. */
  function HolesBeforeLast<T>(p: seq<Arg<T>>): nat {
    if p == [] then 0
    else if p[|p| - 1].Hole? then HolesBeforeLast(p[..|p| - 1])
    else Holes(p[..|p| - 1])
  }

  /** The holes before the first value; all of them in a list without values. */
  function HolesBeforeFirst<T>(p: seq<Arg<T>>): nat {
    if p == [] || !p[0].Hole? then 0 else 1 + HolesBeforeFirst(p[1..])
  }

  /** Inner left partials and outer right partials do not compete: the list with fewer holes has nothing else, or with
      as many holes on both sides the left values lie before the right ones. */
  predicate Compatible<T>(left: seq<Arg<T>>, right: seq<Arg<T>>) {
    if Holes(left) < Holes(right) then Pure(left)
    else if Holes(left) > Holes(right) then Pure(right)
    else HolesBeforeLast(left) <= HolesBeforeFirst(right)
  }

  predicate Independent<T>(innerLeft: Partials<T>, outerRight: Partials<T>) {
    innerLeft.Some? && outerRight.Some? ==> Compatible(innerLeft.value, outerRight.value)
  }

  /** The arguments, followed by undefined ones up to length `n`. */
  function Padded<T>(args: seq<Arg<T>>, n: nat): seq<Arg<T>>
    decreases n - |args|
  {
    if |args| >= n then args else Padded(args + [Undefined], n)
  }

  lemma {:induction false} PaddedLength<T>(args: seq<Arg<T>>, n: nat)
    ensures |Padded(args, n)| == if |args| >= n then |args| else n
    decreases n - |args|
  {
    if |args| < n { PaddedLength(args + [Undefined], n); }
  }

  /** One undefined argument more makes no difference while there are holes for it. */
  lemma {:induction false} FillUndefined<T>(p: seq<Arg<T>>, args: seq<Arg<T>>)
    requires |args| < Holes(p)
    ensures Fill(p, args + [Undefined]) == Fill(p, args)
    decreases |p|
  {
    if p[0].Hole? && args != [] {
      assert (args + [Undefined])[1..] == args[1..] + [Undefined];
      FillUndefined(p[1..], args[1..]);
    } else if p[0].Hole? {
      assert ([] + [Undefined])[1..] == args;
    } else {
      FillUndefined(p[1..], args);
    }
  }

  lemma {:induction false} FillPadded<T>(p: seq<Arg<T>>, args: seq<Arg<T>>, n: nat)
    requires n <= Holes(p)
    ensures Fill(p, Padded(args, n)) == Fill(p, args) && FillRight(p, Padded(args, n)) == FillRight(p, args)
    decreases n - |args|
  {
    if |args| < n {
      FillUndefined(p, args);
      NoSurplus(p, args);
      NoSurplus(p, args + [Undefined]);
      FillPadded(p, args + [Undefined], n);
    }
  }

  lemma NoSurplus<T>(p: seq<Arg<T>>, args: seq<Arg<T>>)
    requires |args| <= Holes(p)
    ensures FillRight(p, args) == Fill(p, args)
  {
    assert args[..0] == [] && args[0..] == args;
  }

  /** A list of holes only takes the arguments as they are. */
  lemma {:induction false} FillPure<T>(p: seq<Arg<T>>, args: seq<Arg<T>>)
    requires Pure(p) && |args| >= |p|
    ensures Fill(p, args) == args
    decreases |p|
  {
    if p != [] {
      HolesAtMost(p[1..]);
      FillPure(p[1..], args[1..]);
    }
  }

  lemma FillRightPure<T>(p: seq<Arg<T>>, args: seq<Arg<T>>)
    requires Pure(p) && |args| >= |p|
    ensures FillRight(p, args) == args
  {
    FillPure(p, args[|args| - |p|..]);
  }

  lemma {:induction false} HolesAtMost<T>(p: seq<Arg<T>>)
    ensures Holes(p) <= |p|
  {
    if p != [] { HolesAtMost(p[1..]); }
  }

  lemma Cut<T>(s: seq<T>, i: nat, j: nat)
    requires i <= j <= |s|
    ensures s == s[..i] + s[i..j] + s[j..]
  {
  }

  // ----- compatible sides commute

  /** The list with fewer holes is the left one, and has nothing else. */
  lemma PureLeftCommutes<T>(left: seq<Arg<T>>, right: seq<Arg<T>>, args: seq<Arg<T>>)
    requires Pure(left) && Holes(left) <= Holes(right)
    ensures Fill(left, FillRight(right, args)) == FillRight(right, Fill(left, args))
  {
    var h := |left|;
    HolesAtMost(right);
    FillPure(left, FillRight(right, args));
    PaddedLength(args, h);
    FillPadded(left, args, h);
    FillPure(left, Padded(args, h));
    FillPadded(right, args, h);
  }

  lemma PureRightCommutes<T>(left: seq<Arg<T>>, right: seq<Arg<T>>, args: seq<Arg<T>>)
    requires Pure(right) && Holes(right) <= Holes(left)
    ensures Fill(left, FillRight(right, args)) == FillRight(right, Fill(left, args))
  {
    var k := |right|;
    HolesAtMost(left);
    FillRightPure(right, Fill(left, args));
    PaddedLength(args, k);
    FillPadded(right, args, k);
    FillRightPure(right, Padded(args, k));
    FillPadded(left, args, k);
  }

  /** A right list that begins with holes takes its arguments from the end, the rest stays in front. */
  lemma FillRightTail<T>(holes: seq<Arg<T>>, rest: seq<Arg<T>>, front: seq<Arg<T>>, own: seq<Arg<T>>)
    requires Pure(holes) && |front| >= |holes| && |own| == Holes(rest)
    ensures FillRight(holes + rest, front + own) == front + Fill(rest, own)
  {
    var s := |front| - |holes|;
    var a, b := front[..s], front[s..];
    assert front == a + b;
    FillRightConcat(holes, rest, a, b, own);
    FillPure(holes, b);
  }

  /** As many holes on both sides, the left values before the right ones, and enough arguments. */
  lemma {:induction false} OrderedCommutes<T>(l: seq<Arg<T>>, l': seq<Arg<T>>, r: seq<Arg<T>>, r': seq<Arg<T>>,
      a: seq<Arg<T>>, mid: seq<Arg<T>>, c: seq<Arg<T>>)
    requires Pure(l') && Pure(r) && |a| == Holes(l) && |c| == Holes(r') && |a| + |mid| >= |r| && |mid| + |c| >= |l'|
    ensures Fill(l + l', FillRight(r + r', a + mid + c)) == FillRight(r + r', Fill(l + l', a + mid + c))
  {
    HolesAtMost(r');
    HolesAtMost(l);
    FillRightTail(r, r', a + mid, c);
    Assoc(a, mid, Fill(r', c));
    FillConcat(l, l', a, mid + Fill(r', c));
    FillPure(l', mid + Fill(r', c));
    Assoc(a, mid, c);
    FillConcat(l, l', a, mid + c);
    FillPure(l', mid + c);
    Assoc(Fill(l, a), mid, c);
    FillRightTail(r, r', Fill(l, a) + mid, c);
    Assoc(Fill(l, a), mid, Fill(r', c));
  }

  /** A list as one that ends with a value, followed by holes. */
  lemma {:induction false} SplitLast<T>(p: seq<Arg<T>>) returns (l: seq<Arg<T>>, l': seq<Arg<T>>)
    ensures p == l + l' && Pure(l') && Holes(l) == HolesBeforeLast(p) && (l != [] ==> !l[|l| - 1].Hole?)
    ensures Holes(p) == Holes(l) + |l'|
  {
    if p == [] {
      l, l' := [], [];
    } else {
      var n := |p| - 1;
      assert p == p[..n] + [p[n]];
      HolesOfConcat(p[..n], [p[n]]);
      if p[n].Hole? {
        l, l' := SplitLast(p[..n]);
        Assoc(l, l', [p[n]]);
        HolesOfConcat(l', [p[n]]);
        l' := l' + [p[n]];
      } else {
        l, l' := p, [];
      }
    }
  }

  /** A list as holes, followed by one that begins with a value. */
  lemma {:induction false} SplitFirst<T>(p: seq<Arg<T>>) returns (r: seq<Arg<T>>, r': seq<Arg<T>>)
    ensures p == r + r' && Pure(r) && |r| == HolesBeforeFirst(p) && (r' != [] ==> !r'[0].Hole?)
    ensures Holes(p) == |r| + Holes(r')
  {
    if p == [] || !p[0].Hole? {
      r, r' := [], p;
    } else {
      r, r' := SplitFirst(p[1..]);
      Assoc([p[0]], r, r');
      r := [p[0]] + r;
    }
  }

  lemma EqualHolesCommute<T>(left: seq<Arg<T>>, right: seq<Arg<T>>, args: seq<Arg<T>>)
    requires Holes(left) == Holes(right) && HolesBeforeLast(left) <= HolesBeforeFirst(right)
    ensures Fill(left, FillRight(right, args)) == FillRight(right, Fill(left, args))
  {
    var h := Holes(left);
    PaddedLength(args, h);
    FillPadded(left, args, h);
    FillPadded(right, args, h);
    EnoughCommute(left, right, Padded(args, h));
  }

  lemma EnoughCommute<T>(left: seq<Arg<T>>, right: seq<Arg<T>>, x: seq<Arg<T>>)
    requires Holes(left) == Holes(right) <= |x| && HolesBeforeLast(left) <= HolesBeforeFirst(right)
    ensures Fill(left, FillRight(right, x)) == FillRight(right, Fill(left, x))
  {
    var l, l' := SplitLast(left);
    var r, r' := SplitFirst(right);
    var i, j := Holes(l), |x| - Holes(r');
    HolesAtMost(l);
    Cut(x, i, j);
    OrderedCommutes(l, l', r, r', x[..i], x[i..j], x[j..]);
  }

  lemma CompatibleCommute<T>(left: seq<Arg<T>>, right: seq<Arg<T>>, args: seq<Arg<T>>)
    requires Compatible(left, right)
    ensures Fill(left, FillRight(right, args)) == FillRight(right, Fill(left, args))
  {
    if Holes(left) < Holes(right) {
      PureLeftCommutes(left, right, args);
    } else if Holes(left) > Holes(right) {
      PureRightCommutes(left, right, args);
    } else {
      EqualHolesCommute(left, right, args);
    }
  }

  // ----- incompatible sides do not

  lemma {:induction false} FillWithHoles<T>(p: seq<Arg<T>>, args: seq<Arg<T>>)
    requires Pure(args) && |args| == Holes(p)
    ensures Fill(p, args) == p
    decreases |p|
  {
    if p != [] {
      if p[0].Hole? {
        HolesAtMost(args[1..]);
        FillWithHoles(p[1..], args[1..]);
      } else {
        FillWithHoles(p[1..], args);
      }
    }
  }

  lemma {:induction false} AllHoles<T>(n: nat) returns (args: seq<Arg<T>>)
    ensures Pure(args) && |args| == n
  {
    if n == 0 {
      args := [];
    } else {
      args := AllHoles(n - 1);
      args := [Hole] + args;
    }
  }

  /** As many holes on both sides, but the first right value comes before the last left one: with holes for arguments,
      the one order puts fewer of them in front. */
  lemma CrossedDiffer<T>(left: seq<Arg<T>>, right: seq<Arg<T>>)
    requires Holes(left) == Holes(right) && HolesBeforeLast(left) > HolesBeforeFirst(right)
    ensures Fill(left, right) != FillRight(right, left)
  {
    var l, l' := SplitLast(left);
    var r, r' := SplitFirst(right);
    HolesAtMost(l);
    HolesAtMost(right);
    assert r + r' == right && right[|r|] == r'[0];
    var p, q := SplitAt(right, Holes(l), |r|);
    SplitDiffer(l, l', p, q);
  }

  /** The first `i` elements, among them a value, and the others. */
  lemma SplitAt<T>(s: seq<Arg<T>>, i: nat, j: nat) returns (p: seq<Arg<T>>, q: seq<Arg<T>>)
    requires j < i <= |s| && !s[j].Hole?
    ensures s == p + q && |p| == i && Holes(p) < i && Holes(s) == Holes(p) + Holes(q)
  {
    p, q := s[..i], s[i..];
    assert s == p + q && p[j] == s[j];
    HolesOfConcat(p, q);
    FewerInFront(p, j);
  }

  /** The left list up to its last value is `l`, and the right list is `p + q`. */
  lemma SplitDiffer<T>(l: seq<Arg<T>>, l': seq<Arg<T>>, p: seq<Arg<T>>, q: seq<Arg<T>>)
    requires l != [] && !l[|l| - 1].Hole? && Holes(p) < |p| == Holes(l) <= |l| && |p| + |l'| == Holes(p) + Holes(q)
    ensures Fill(l + l', p + q) != FillRight(p + q, l + l')
  {
    var s := |l| - |p|;
    var m := s + Holes(p);
    Cut(l, s, m);
    FrontOfFill(l, l', p, q);
    MoreInFront(l, l', p, q, l[..s], l[s..m], l[m..]);
    ApartInFront(Fill(l + l', p + q), FillRight(p + q, l + l'), |l|);
  }

  lemma MoreInFront<T>(l: seq<Arg<T>>, l': seq<Arg<T>>, p: seq<Arg<T>>, q: seq<Arg<T>>, a: seq<Arg<T>>, b: seq<Arg<T>>,
                       d: seq<Arg<T>>)
    requires l == (a + b) + d && d != [] && !d[|d| - 1].Hole?
    requires |p| == Holes(l) && |a| + |p| == |l| && |b| == Holes(p) && |d + l'| == Holes(q)
    ensures var r := FillRight(p + q, l + l'); |l| <= |r| && Holes(r[..|l|]) > Holes(p)
  {
    Assoc(a + b, d, l');
    FrontOfFillRight(a, b, d + l', p, q);
    ValuesBehind(a + b, d);
  }

  lemma ApartInFront<T>(x: seq<Arg<T>>, y: seq<Arg<T>>, n: nat)
    requires n <= |x| && n <= |y| && Holes(x[..n]) != Holes(y[..n])
    ensures x != y
  {
  }

  /** The part of the left list up to its last value takes the first elements of the right list. */
  lemma FrontOfFill<T>(l: seq<Arg<T>>, l': seq<Arg<T>>, p: seq<Arg<T>>, q: seq<Arg<T>>)
    requires |p| == Holes(l)
    ensures |Fill(l + l', p + q)| >= |l| && Holes(Fill(l + l', p + q)[..|l|]) == Holes(p)
  {
    FillConcat(l, l', p, q);
    HolesOfFill(l, p);
    assert (Fill(l, p) + Fill(l', q))[..|l|] == Fill(l, p);
  }

  /** The same number of elements when the right list is filled with the left one. */
  lemma FrontOfFillRight<T>(a: seq<Arg<T>>, b: seq<Arg<T>>, c: seq<Arg<T>>, p: seq<Arg<T>>, q: seq<Arg<T>>)
    requires |b| == Holes(p) && |c| == Holes(q)
    ensures var r := FillRight(p + q, a + b + c);
            |a| + |p| <= |r| && Holes(r[..|a| + |p|]) == Holes(a + b)
  {
    FillRightConcat(p, q, a, b, c);
    HolesOfFill(p, b);
    HolesOfConcat(a, Fill(p, b));
    HolesOfConcat(a, b);
    assert (a + Fill(p, b) + Fill(q, c))[..|a| + |p|] == a + Fill(p, b);
  }

  /** A value leaves room for fewer holes. */
  lemma FewerInFront<T>(p: seq<Arg<T>>, j: nat)
    requires j < |p| && !p[j].Hole?
    ensures Holes(p) < |p|
  {
    assert p == p[..j] + [p[j]] + p[j + 1..];
    HolesOfConcat(p[..j] + [p[j]], p[j + 1..]);
    HolesOfConcat(p[..j], [p[j]]);
    HolesAtMost(p[..j]);
    HolesAtMost(p[j + 1..]);
  }

  /** A list that ends with a value adds fewer holes than elements. */
  lemma ValuesBehind<T>(p: seq<Arg<T>>, q: seq<Arg<T>>)
    requires q != [] && !q[|q| - 1].Hole?
    ensures Holes(p + q) < Holes(p) + |q|
  {
    FewerInFront(q, |q| - 1);
    HolesOfConcat(p, q);
  }

  /** Inner left and outer right partials commute for all calls exactly when they are compatible. */
  lemma SidesCommuteExact<T>(left: seq<Arg<T>>, right: seq<Arg<T>>)
    ensures (forall args :: Fill(left, FillRight(right, args)) == FillRight(right, Fill(left, args))) <==>
              Compatible(left, right)
  {
    if Compatible(left, right) {
      forall args: seq<Arg<T>> ensures Fill(left, FillRight(right, args)) == FillRight(right, Fill(left, args)) {
        CompatibleCommute(left, right, args);
      }
    } else if Holes(left) == Holes(right) {
      var args := AllHoles<T>(Holes(left));
      FillWithHoles(left, args);
      FillWithHoles(right, args);
      NoSurplus(right, args);
      CrossedDiffer(left, right);
    } else {
      HolesAtMost(left);
      HolesAtMost(right);
      var args: seq<Arg<T>> := [];
      assert |Fill(left, FillRight(right, args))| != |FillRight(right, Fill(left, args))|;
    }
  }

  // ----- calls without placeholders

  /** The list with holes for the value `v`. */
  function Hollow<T(==)>(s: seq<Arg<T>>, v: T): (r: seq<Arg<T>>)
    ensures |r| == |s| && forall i :: 0 <= i < |s| ==> r[i] == if s[i] == Value(v) then Hole else s[i]
  {
    seq(|s|, i requires 0 <= i < |s| => if s[i] == Value(v) then Hole else s[i])
  }

  /** A value that the list does not hold may be filled in as well as a hole. */
  lemma {:induction false} FillHollow<T>(p: seq<Arg<T>>, args: seq<Arg<T>>, v: T)
    requires Value(v) !in p && |args| >= Holes(p)
    ensures Hollow(Fill(p, args), v) == Fill(p, Hollow(args, v))
    decreases |p|
  {
    if p != [] {
      var rest := if p[0].Hole? then args[1..] else args;
      var head := if p[0].Hole? then args[0] else p[0];
      assert p == [p[0]] + p[1..];
      FillCons(p[0], p[1..], args);
      FillCons(p[0], p[1..], Hollow(args, v));
      HollowConcat([head], Fill(p[1..], rest), v);
      HollowSplit(args, if p[0].Hole? then 1 else 0, v);
      FillHollow(p[1..], rest, v);
    }
  }

  lemma FillRightHollow<T>(p: seq<Arg<T>>, args: seq<Arg<T>>, v: T)
    requires Value(v) !in p && |args| >= Holes(p)
    ensures Hollow(FillRight(p, args), v) == FillRight(p, Hollow(args, v))
  {
    var k := Surplus(p, args);
    FillHollow(p, args[k..], v);
    HollowConcat(args[..k], Fill(p, args[k..]), v);
    HollowSplit(args, k, v);
  }

  lemma HollowConcat<T>(a: seq<Arg<T>>, b: seq<Arg<T>>, v: T)
    ensures Hollow(a + b, v) == Hollow(a, v) + Hollow(b, v)
  {
  }

  lemma HollowSplit<T>(s: seq<Arg<T>>, k: nat, v: T)
    requires k <= |s|
    ensures Hollow(s, v)[..k] == Hollow(s[..k], v) && Hollow(s, v)[k..] == Hollow(s[k..], v)
  {
  }

  /** `n` arguments `v`, which become `n` holes. */
  lemma {:induction false} SameArguments<T>(n: nat, v: T) returns (args: seq<Arg<T>>)
    ensures |args| == n && Holes(args) == 0 && Pure(Hollow(args, v))
  {
    if n == 0 {
      args := [];
    } else {
      var rest := SameArguments(n - 1, v);
      args := [Value(v)] + rest;
      assert Hollow(args, v) == [Hole] + Hollow(rest, v);
    }
  }

  /** Crossed sides differ for a call with values only. */
  lemma CrossedCallDiffers<T>(left: seq<Arg<T>>, right: seq<Arg<T>>, v: T) returns (args: seq<Arg<T>>)
    requires Holes(left) == Holes(right) && HolesBeforeLast(left) > HolesBeforeFirst(right)
    requires Value(v) !in left && Value(v) !in right
    ensures Holes(args) == 0 && Fill(left, FillRight(right, args)) != FillRight(right, Fill(left, args))
  {
    args := SameArguments(Holes(left), v);
    NoSurplus(right, args);
    FillHollow(right, args, v);
    FillWithHoles(right, Hollow(args, v));
    FillHollow(left, args, v);
    FillWithHoles(left, Hollow(args, v));
    HolesAtMost(left);
    HolesAtMost(right);
    FillHollow(left, FillRight(right, args), v);
    FillRightHollow(right, Fill(left, args), v);
    CrossedDiffer(left, right);
  }

  /** Placeholders among the arguments of a call change nothing: the sides commute for all calls with values only,
      exactly when they are compatible. `v` is any value that neither side holds. */
  lemma CallsCommuteExact<T>(left: seq<Arg<T>>, right: seq<Arg<T>>, v: T)
    requires Value(v) !in left && Value(v) !in right
    ensures (forall args :: Holes(args) == 0 ==>
               Fill(left, FillRight(right, args)) == FillRight(right, Fill(left, args))) <==> Compatible(left, right)
  {
    if Compatible(left, right) {
      SidesCommuteExact(left, right);
    } else if Holes(left) == Holes(right) {
      var args := CrossedCallDiffers(left, right, v);
    } else {
      HolesAtMost(left);
      HolesAtMost(right);
      var args: seq<Arg<T>> := [];
      assert Holes(args) == 0;
      assert |Fill(left, FillRight(right, args))| != |FillRight(right, Fill(left, args))|;
    }
  }

  /** Inner left partials `_, 1` and outer right partials `2, _`, called with 3: nested calls deliver 2, 1, 3, merged
      ones 3, 2, 1. */
  lemma SidesCompete()
    ensures var left: seq<Arg<int>>, right: seq<Arg<int>>, args := [Hole, Value(1)], [Value(2), Hole], [Value(3)];
            && Fill(left, FillRight(right, args)) == [Value(2), Value(1), Value(3)]
            && FillRight(right, Fill(left, args)) == [Value(3), Value(2), Value(1)]
  {
    var left: seq<Arg<int>>, right: seq<Arg<int>>, args := [Hole, Value(1)], [Value(2), Hole], [Value(3)];
    var none: seq<Arg<int>> := [];
    NoSurplus(right, args);
    FillCons(Hole, [Value(1)], args);
    FillCons(Hole, [Value(1)], [Value(2), Value(3)]);
    FillCons(Value(1), none, none);
    FillCons(Value(1), none, [Value(3)]);
    FillCons(Value(2), [Hole], args);
    FillCons(Value(2), [Hole], [Value(1)]);
    FillCons(Hole, none, args);
    FillCons(Hole, none, [Value(1)]);
    assert left == [Hole] + [Value(1)] && right == [Value(2)] + [Hole];
    assert [Value(1)] == [Value(1)] + none && [Hole] == [Hole] + none;
    assert Fill(left, args) == [Value(3), Value(1)];
  }

  // ----- wrappers with partials on both sides

  lemma SidesCommute<T>(left: Partials<T>, right: Partials<T>, args: seq<Arg<T>>)
    requires Independent(left, right)
    ensures FillLeftSide(left, FillRightSide(right, args)) == FillRightSide(right, FillLeftSide(left, args))
  {
    if left.Some? && right.Some? {
      CompatibleCommute(left.value, right.value, args);
    }
  }

  /** Wrapping a wrapper and merging the two delivers the same arguments for every call. */
  lemma MergeKeepsMeaning<T>(innerLeft: Partials<T>, innerRight: Partials<T>, outerLeft: Partials<T>,
                             outerRight: Partials<T>, args: seq<Arg<T>>)
    requires SideCovers(outerLeft, innerLeft) && SideCovers(outerRight, innerRight)
    requires Independent(innerLeft, outerRight)
    ensures Delivered(MergedLeftSide(innerLeft, outerLeft), MergedRightSide(innerRight, outerRight), args)
         == Delivered(innerLeft, innerRight, Delivered(outerLeft, outerRight, args))
  {
    var x := FillLeftSide(outerLeft, args);
    SidesCommute(innerLeft, outerRight, x);
    if innerLeft.Some? && outerLeft.Some? { MergedLeft(innerLeft.value, outerLeft.value, args); }
    if innerRight.Some? && outerRight.Some? {
      MergedRight(innerRight.value, outerRight.value, FillLeftSide(innerLeft, x));
    }
  }
}
