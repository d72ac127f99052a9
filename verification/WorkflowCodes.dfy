/** The workflow editor's codes: status nodes numbered S1, S2, … and links numbered L1, L2, … across all open tabs. */
module WorkflowCodes {
  import Numerals

  datatype Kind = StatusNode | Rote | Other(name: string)
  datatype Property = Status | ActionCode

  /** What a cell carries; a property that a cell lacks is empty. */
  datatype CellState = CellState(kind: Kind, status: string, actionCode: string) {
    function Get(p: Property): string {
      if p.Status? then status else actionCode
    }

    function With(p: Property, code: string): CellState {
      if p.Status? then this.(status := code) else this.(actionCode := code)
    }
  }

  /** The open tabs with the ids of their cells, and the cells. */
  datatype State = State(tabs: seq<seq<nat>>, cells: map<nat, CellState>)

  /** The property that numbers a kind of cell. */
  predicate Numbers(p: Property, kind: Kind) {
    (p.Status? && kind.StatusNode?) || (p.ActionCode? && kind.Rote?)
  }

  function Prefix(p: Property): string {
    if p.Status? then "S" else "L"
  }

  // ----- what is kept

  /** All places of all tabs. */
  function Bag(tabs: seq<seq<nat>>): multiset<nat> {
    if tabs == [] then multiset{} else Bag(tabs[..|tabs| - 1]) + multiset(tabs[|tabs| - 1])
  }

  /** Every cell lies in one tab, at one place. */
  ghost predicate Placed(s: State) {
    Bag(s.tabs) == multiset(s.cells.Keys)
  }

  lemma {:induction false} BagMember(tabs: seq<seq<nat>>, id: nat)
    ensures id in Bag(tabs) <==> exists t :: 0 <= t < |tabs| && id in tabs[t]
  {
    if tabs != [] {
      var n := |tabs| - 1;
      BagMember(tabs[..n], id);
      assert forall t :: 0 <= t < n ==> tabs[..n][t] == tabs[t];
    }
  }

  lemma {:induction false} BagUpdate(tabs: seq<seq<nat>>, t: nat, tab: seq<nat>)
    requires t < |tabs|
    ensures Bag(tabs[t := tab]) + multiset(tabs[t]) == Bag(tabs) + multiset(tab)
  {
    var n := |tabs| - 1;
    if t == n {
      assert tabs[t := tab][..n] == tabs[..n];
    } else {
      assert tabs[t := tab][..n] == tabs[..n][t := tab];
      BagUpdate(tabs[..n], t, tab);
      var was, now := Bag(tabs[..n]), Bag(tabs[..n][t := tab]);
      AddedLast(now, was, multiset(tabs[t]), multiset(tab), multiset(tabs[n]));
      assert Bag(tabs[t := tab]) == now + multiset(tabs[n]);
    }
  }

  lemma AddedLast(a: multiset<nat>, b: multiset<nat>, c: multiset<nat>, d: multiset<nat>, last: multiset<nat>)
    requires a + c == b + d
    ensures a + last + c == b + last + d
  {
    forall id ensures (a + last + c)[id] == (b + last + d)[id] {
      assert (a + c)[id] == (b + d)[id];
    }
  }

  lemma {:induction false} BagWithout(tabs: seq<seq<nat>>, t: nat)
    requires t < |tabs|
    ensures Bag(tabs[..t] + tabs[t + 1..]) + multiset(tabs[t]) == Bag(tabs)
  {
    var n := |tabs| - 1;
    var rest := tabs[..t] + tabs[t + 1..];
    if t == n {
      assert rest == tabs[..n];
    } else {
      assert rest[..n - 1] == tabs[..n][..t] + tabs[..n][t + 1..];
      BagWithout(tabs[..n], t);
    }
  }

  /** No two cells of one kind share the code that numbers this kind. */
  ghost predicate Unique(cells: map<nat, CellState>) {
    forall a, b, p :: a in cells && b in cells && a != b && Numbers(p, cells[a].kind) ==> !Clash(cells[a], cells[b], p)
  }

  predicate Clash(a: CellState, b: CellState, p: Property) {
    a.kind == b.kind && a.Get(p) == b.Get(p)
  }

  // ----- free numbers

  function Code(p: Property, n: nat): string {
    Prefix(p) + Numerals.Decimal(n)
  }

  lemma CodeInjective(p: Property, m: nat, n: nat)
    ensures Code(p, m) == Code(p, n) <==> m == n
  {
    assert Code(p, m)[1..] == Numerals.Decimal(m) && Code(p, n)[1..] == Numerals.Decimal(n);
    Numerals.DecimalRead(m);
    Numerals.DecimalRead(n);
  }

  /** The cells of a kind other than `except`. */
  function SameKind(cells: map<nat, CellState>, kind: Kind, except: set<nat>): set<nat> {
    set id | id in cells && cells[id].kind == kind && id !in except
  }

  predicate Taken(cells: map<nat, CellState>, kind: Kind, except: set<nat>, p: Property, code: string) {
    exists id :: id in cells && cells[id].kind == kind && id !in except && cells[id].Get(p) == code
  }

  ghost predicate AllTaken(cells: map<nat, CellState>, kind: Kind, except: set<nat>, p: Property, n: nat) {
    forall m :: 1 <= m <= n ==> Taken(cells, kind, except, p, Code(p, m))
  }

  /** `n` is the smallest number whose code is not taken. */
  ghost predicate SmallestFree(cells: map<nat, CellState>, kind: Kind, except: set<nat>, p: Property, n: nat) {
    n >= 1 && AllTaken(cells, kind, except, p, n - 1) && !Taken(cells, kind, except, p, Code(p, n))
  }

  /** The first n numbers cannot all be taken by fewer than n cells. */
  lemma {:induction false} Pigeonhole(cells: map<nat, CellState>, kind: Kind, except: set<nat>, p: Property, n: nat)
    requires AllTaken(cells, kind, except, p, n)
    ensures n <= |SameKind(cells, kind, except)|
    decreases n
  {
    if n > 0 {
      assert Taken(cells, kind, except, p, Code(p, n));
      var id :| id in cells && cells[id].kind == kind && id !in except && cells[id].Get(p) == Code(p, n);
      forall m | 1 <= m <= n - 1 ensures Taken(cells, kind, except + {id}, p, Code(p, m)) {
        CodeInjective(p, m, n);
        var other :|
          other in cells && cells[other].kind == kind && other !in except && cells[other].Get(p) == Code(p, m);
        assert other != id;
      }
      Pigeonhole(cells, kind, except + {id}, p, n - 1);
      assert SameKind(cells, kind, except) == SameKind(cells, kind, except + {id}) + {id};
    }
  }

  /** There is a smallest free number, at most one more than the number of cells of that kind. */
  lemma {:induction false} SmallestFreeFrom(cells: map<nat, CellState>, kind: Kind, except: set<nat>, p: Property,
                                            i: nat)
    requires i >= 1 && AllTaken(cells, kind, except, p, i - 1)
    ensures exists n: nat :: SmallestFree(cells, kind, except, p, n) && n <= |SameKind(cells, kind, except)| + 1
    decreases |SameKind(cells, kind, except)| + 1 - i
  {
    Pigeonhole(cells, kind, except, p, i - 1);
    if Taken(cells, kind, except, p, Code(p, i)) {
      Pigeonhole(cells, kind, except, p, i);
      SmallestFreeFrom(cells, kind, except, p, i + 1);
    } else {
      assert SmallestFree(cells, kind, except, p, i);
    }
  }

  lemma SmallestFreeUnique(cells: map<nat, CellState>, kind: Kind, except: set<nat>, p: Property, m: nat, n: nat)
    requires SmallestFree(cells, kind, except, p, m) && SmallestFree(cells, kind, except, p, n)
    ensures m == n
  {
  }

  /** A cell that is left out of account does not matter. */
  lemma FreeNumberOthers(cells: map<nat, CellState>, id: nat, c: CellState, kind: Kind, p: Property)
    requires id !in cells
    ensures FreeNumber(cells[id := c], kind, {id}, p) == FreeNumber(cells, kind, {}, p)
  {
    var all := cells[id := c];
    forall code ensures Taken(all, kind, {id}, p, code) <==> Taken(cells, kind, {}, p, code) {
      if Taken(cells, kind, {}, p, code) {
        var other :| other in cells && cells[other].kind == kind && other !in {} && cells[other].Get(p) == code;
        assert other in all && all[other] == cells[other];
      }
    }
    SmallestFreeUnique(cells, kind, {}, p, FreeNumber(all, kind, {id}, p), FreeNumber(cells, kind, {}, p));
  }

  ghost function FreeNumber(cells: map<nat, CellState>, kind: Kind, except: set<nat>, p: Property): (n: nat)
    ensures SmallestFree(cells, kind, except, p, n) && n <= |SameKind(cells, kind, except)| + 1
  {
    SmallestFreeFrom(cells, kind, except, p, 1);
    var n: nat :| SmallestFree(cells, kind, except, p, n) && n <= |SameKind(cells, kind, except)| + 1;
    n
  }

  // ----- one step

  /** What the user does. */
  datatype Step =
    | AddTab
    | AddNode(tab: nat, id: nat)
    | AddLink(tab: nat, id: nat)
    | AddOther(tab: nat, id: nat, cell: CellState)
    | Edit(id: nat, p: Property, code: string)
    | Remove(tab: nat, at: nat)
    | CloseTab(tab: nat)

  /** New ids are new, tabs and cells exist, and the edit box of a kind edits the property of that kind. */
  predicate Allowed(s: State, step: Step) {
    match step
    case AddTab => true
    case AddNode(t, id) => t < |s.tabs| && id !in s.cells
    case AddLink(t, id) => t < |s.tabs| && id !in s.cells
    case AddOther(t, id, c) => t < |s.tabs| && id !in s.cells && c.kind.Other?
    case Edit(id, p, code) => id in s.cells && Numbers(p, s.cells[id].kind)
    case Remove(t, k) => t < |s.tabs| && k < |s.tabs[t]|
    case CloseTab(t) => t < |s.tabs|
  }

  function AddCell(s: State, t: nat, id: nat, c: CellState): State
    requires t < |s.tabs|
  {
    State(s.tabs[t := s.tabs[t] + [id]], s.cells[id := c])
  }

  /** A node is numbered by the smallest number that no other node has. */
  ghost function NewNode(s: State, t: nat, id: nat): State
    requires t < |s.tabs|
  {
    AddCell(s, t, id, CellState(StatusNode, Code(Status, FreeNumber(s.cells, StatusNode, {}, Status)), ""))
  }

  ghost function NewLink(s: State, t: nat, id: nat): State
    requires t < |s.tabs|
  {
    AddCell(s, t, id, CellState(Rote, "", Code(ActionCode, FreeNumber(s.cells, Rote, {}, ActionCode))))
  }

  /** An edit is refused when another cell of the kind has the code. */
  function Edited(s: State, id: nat, p: Property, code: string): State
    requires id in s.cells
  {
    if Taken(s.cells, s.cells[id].kind, {id}, p, code) then s else SetAt(s, id, p, code)
  }

  function SetAt(s: State, id: nat, p: Property, code: string): State
    requires id in s.cells
  {
    s.(cells := s.cells[id := s.cells[id].With(p, code)])
  }

  function RemoveCell(s: State, t: nat, k: nat): State
    requires t < |s.tabs| && k < |s.tabs[t]|
  {
    State(s.tabs[t := s.tabs[t][..k] + s.tabs[t][k + 1..]], s.cells - {s.tabs[t][k]})
  }

  function DropTab(s: State, t: nat): State
    requires t < |s.tabs|
  {
    State(s.tabs[..t] + s.tabs[t + 1..], s.cells - set id | id in s.tabs[t])
  }

  ghost function Apply(s: State, step: Step): State
    requires Allowed(s, step)
  {
    match step
    case AddTab => State(s.tabs + [[]], s.cells)
    case AddNode(t, id) => NewNode(s, t, id)
    case AddLink(t, id) => NewLink(s, t, id)
    case AddOther(t, id, c) => AddCell(s, t, id, c)
    case Edit(id, p, code) => Edited(s, id, p, code)
    case Remove(t, k) => RemoveCell(s, t, k)
    case CloseTab(t) => DropTab(s, t)
  }

  /** Every step keeps the codes unique. */
  lemma StepUnique(s: State, step: Step)
    requires Allowed(s, step) && Unique(s.cells)
    ensures Unique(Apply(s, step).cells)
  {
  }

  /** The state after a run; a step that is not allowed cannot be taken. */
  ghost function Run(s: State, steps: seq<Step>): State
    decreases |steps|
  {
    if steps == [] then s
    else if Allowed(s, steps[0]) then Run(Apply(s, steps[0]), steps[1..])
    else Run(s, steps[1..])
  }

  /** Over every run from an empty project the codes stay unique. */
  lemma {:induction false} RunUnique(s: State, steps: seq<Step>)
    requires Unique(s.cells)
    ensures Unique(Run(s, steps).cells)
    decreases |steps|
  {
    if steps != [] {
      if Allowed(s, steps[0]) {
        StepUnique(s, steps[0]);
        RunUnique(Apply(s, steps[0]), steps[1..]);
      } else {
        RunUnique(s, steps[1..]);
      }
    }
  }

  /** Every step keeps each cell at one place. */
  lemma StepPlaced(s: State, step: Step)
    requires Allowed(s, step) && Placed(s)
    ensures Placed(Apply(s, step))
  {
    match step {
      case AddTab => assert (s.tabs + [[]])[..|s.tabs|] == s.tabs;
      case AddNode(t, id) => AddedPlaced(s, t, id, Apply(s, step).cells[id]);
      case AddLink(t, id) => AddedPlaced(s, t, id, Apply(s, step).cells[id]);
      case AddOther(t, id, c) => AddedPlaced(s, t, id, c);
      case Edit(id, p, code) => assert Apply(s, step).cells.Keys == s.cells.Keys;
      case Remove(t, k) => RemovedPlaced(s, t, k);
      case CloseTab(t) => ClosedPlaced(s, t);
    }
  }

  lemma AddedPlaced(s: State, t: nat, id: nat, c: CellState)
    requires Placed(s) && t < |s.tabs| && id !in s.cells
    ensures Placed(AddCell(s, t, id, c))
  {
    BagUpdate(s.tabs, t, s.tabs[t] + [id]);
    var bag := Bag(s.tabs[t := s.tabs[t] + [id]]);
    assert bag + multiset(s.tabs[t]) == Bag(s.tabs) + multiset{id} + multiset(s.tabs[t]);
    Cancel(bag, Bag(s.tabs) + multiset{id}, multiset(s.tabs[t]));
    KeysPlus(s.cells.Keys, id);
    assert s.cells[id := c].Keys == s.cells.Keys + {id};
  }

  lemma Cancel(a: multiset<nat>, b: multiset<nat>, c: multiset<nat>)
    requires a + c == b + c
    ensures a == b
  {
    forall id ensures a[id] == b[id] {
      assert (a + c)[id] == (b + c)[id];
    }
  }

  lemma KeysPlus(keys: set<nat>, id: nat)
    ensures id !in keys ==> multiset(keys + {id}) == multiset(keys) + multiset{id}
    ensures id in keys ==> multiset(keys - {id}) == multiset(keys) - multiset{id}
  {
  }

  lemma RemovedPlaced(s: State, t: nat, k: nat)
    requires Placed(s) && t < |s.tabs| && k < |s.tabs[t]|
    ensures Placed(RemoveCell(s, t, k))
  {
    var tab := s.tabs[t];
    var rest := tab[..k] + tab[k + 1..];
    BagUpdate(s.tabs, t, rest);
    RemovedElement(tab, k);
    OneLess(Bag(s.tabs[t := rest]), s.cells.Keys, multiset(rest), tab[k]);
  }

  lemma OneLess(bag: multiset<nat>, keys: set<nat>, rest: multiset<nat>, id: nat)
    requires bag + (multiset{id} + rest) == multiset(keys) + rest
    ensures bag == multiset(keys - {id})
  {
    forall x ensures bag[x] == multiset(keys - {id})[x] {
      assert (bag + (multiset{id} + rest))[x] == (multiset(keys) + rest)[x];
    }
  }

  lemma RemovedElement(tab: seq<nat>, k: nat)
    requires k < |tab|
    ensures multiset(tab) == multiset{tab[k]} + multiset(tab[..k] + tab[k + 1..])
  {
    assert tab == tab[..k] + [tab[k]] + tab[k + 1..];
  }

  lemma ClosedPlaced(s: State, t: nat)
    requires Placed(s) && t < |s.tabs|
    ensures Placed(DropTab(s, t))
  {
    BagWithout(s.tabs, t);
    OnlyOnce(Bag(s.tabs[..t] + s.tabs[t + 1..]), s.tabs[t], s.cells.Keys);
    assert DropTab(s, t).cells.Keys == s.cells.Keys - set id | id in s.tabs[t];
  }

  lemma OnlyOnce(rest: multiset<nat>, tab: seq<nat>, keys: set<nat>)
    requires rest + multiset(tab) == multiset(keys)
    ensures rest == multiset(keys - set id | id in tab)
  {
    var gone := set id | id in tab;
    forall id ensures rest[id] == multiset(keys - gone)[id] {
      assert rest[id] + multiset(tab)[id] == multiset(keys)[id];
      assert id in gone <==> id in multiset(tab);
    }
  }

  // ----- what the steps do

  /** A new node is numbered S1, S2, … by the smallest number that no node has; nothing else changes. */
  lemma NewNodeMeaning(s: State, t: nat, id: nat)
    requires t < |s.tabs| && id !in s.cells
    ensures var n := NewNode(s, t, id);
            && n.tabs == s.tabs[t := s.tabs[t] + [id]] && id in n.cells && n.cells - {id} == s.cells
            && n.cells[id].kind == StatusNode && n.cells[id].actionCode == ""
            && exists k :: n.cells[id].status == "S" + Numerals.Decimal(k) && FirstFreeNode(s, k)
  {
    var k := FreeNumber(s.cells, StatusNode, {}, Status);
    assert NewNode(s, t, id).cells[id].status == "S" + Numerals.Decimal(k);
    forall m | 1 <= m < k ensures NodeNumbered(s, m) {
      assert Taken(s.cells, StatusNode, {}, Status, Code(Status, m));
      var other :| other in s.cells && s.cells[other].kind == StatusNode && other !in {}
                   && s.cells[other].Get(Status) == Code(Status, m);
    }
    forall other | other in s.cells && s.cells[other].kind == StatusNode
      ensures s.cells[other].status != "S" + Numerals.Decimal(k)
    {
      assert other !in {} && s.cells[other].Get(Status) == s.cells[other].status;
    }
  }

  ghost predicate NodeNumbered(s: State, n: nat) {
    exists other :: other in s.cells && s.cells[other].kind == StatusNode
                    && s.cells[other].status == "S" + Numerals.Decimal(n)
  }

  ghost predicate FirstFreeNode(s: State, n: nat) {
    n >= 1 && !NodeNumbered(s, n) && forall m :: 1 <= m < n ==> NodeNumbered(s, m)
  }

  ghost predicate LinkNumbered(s: State, n: nat) {
    exists other :: other in s.cells && s.cells[other].kind == Rote
                    && s.cells[other].actionCode == "L" + Numerals.Decimal(n)
  }

  ghost predicate FirstFreeLink(s: State, n: nat) {
    n >= 1 && !LinkNumbered(s, n) && forall m :: 1 <= m < n ==> LinkNumbered(s, m)
  }

  /** A new link is numbered L1, L2, … in the same way. */
  lemma NewLinkMeaning(s: State, t: nat, id: nat)
    requires t < |s.tabs| && id !in s.cells
    ensures var n := NewLink(s, t, id);
            && n.tabs == s.tabs[t := s.tabs[t] + [id]] && id in n.cells && n.cells - {id} == s.cells
            && n.cells[id].kind == Rote && n.cells[id].status == ""
            && exists k :: n.cells[id].actionCode == "L" + Numerals.Decimal(k) && FirstFreeLink(s, k)
  {
    var k := FreeNumber(s.cells, Rote, {}, ActionCode);
    assert NewLink(s, t, id).cells[id].actionCode == "L" + Numerals.Decimal(k);
    forall m | 1 <= m < k ensures LinkNumbered(s, m) {
      assert Taken(s.cells, Rote, {}, ActionCode, Code(ActionCode, m));
      var other :| other in s.cells && s.cells[other].kind == Rote && other !in {}
                   && s.cells[other].Get(ActionCode) == Code(ActionCode, m);
    }
    forall other | other in s.cells && s.cells[other].kind == Rote
      ensures s.cells[other].actionCode != "L" + Numerals.Decimal(k)
    {
      assert other !in {} && s.cells[other].Get(ActionCode) == s.cells[other].actionCode;
    }
  }

  /** Removing a cell takes its place from its tab and nothing else. */
  lemma RemoveMeaning(s: State, t: nat, k: nat, id: nat)
    requires t < |s.tabs| && k < |s.tabs[t]|
    ensures var n := RemoveCell(s, t, k);
            && (id in n.cells <==> id in s.cells && id != s.tabs[t][k])
            && (id in n.cells ==> n.cells[id] == s.cells[id])
            && |n.tabs| == |s.tabs| && (forall u :: 0 <= u < |s.tabs| && u != t ==> n.tabs[u] == s.tabs[u])
            && |n.tabs[t]| == |s.tabs[t]| - 1
            && (forall j :: 0 <= j < k ==> n.tabs[t][j] == s.tabs[t][j])
            && (forall j :: k < j < |s.tabs[t]| ==> n.tabs[t][j - 1] == s.tabs[t][j])
  {
  }

  /** Closing a tab takes its cells, and leaves the other tabs in order. */
  lemma CloseMeaning(s: State, t: nat, id: nat)
    requires t < |s.tabs|
    ensures var n := DropTab(s, t);
            && (id in n.cells <==> id in s.cells && id !in s.tabs[t]) && (id in n.cells ==> n.cells[id] == s.cells[id])
            && |n.tabs| == |s.tabs| - 1 && (forall u :: 0 <= u < t ==> n.tabs[u] == s.tabs[u])
            && (forall u :: t < u < |s.tabs| ==> n.tabs[u - 1] == s.tabs[u])
  {
  }

  // ----- validate

  /** Where a duplicate was found. */
  datatype Place = Place(graph: nat, id: nat)

  /** A cell other than `id` of the kind of `id` that carries the code; without a cell `id` there is none. */
  predicate Doubles(cells: map<nat, CellState>, p: Property, code: string, id: nat, other: nat) {
    id in cells && other in cells && other != id && cells[other].kind == cells[id].kind && cells[other].Get(p) == code
  }

  function DoubledIn(s: State, p: Property, code: string, id: nat, t: nat, n: nat): seq<Place>
    requires t < |s.tabs| && n <= |s.tabs[t]|
  {
    if n == 0 then []
    else
      DoubledIn(s, p, code, id, t, n - 1)
      + if Doubles(s.cells, p, code, id, s.tabs[t][n - 1]) then [Place(t, s.tabs[t][n - 1])] else []
  }

  /** The duplicates in the first `t` tabs, in tab order. */
  function Doubled(s: State, p: Property, code: string, id: nat, t: nat): seq<Place>
    requires t <= |s.tabs|
  {
    if t == 0 then []
    else Doubled(s, p, code, id, t - 1) + DoubledIn(s, p, code, id, t - 1, |s.tabs[t - 1]|)
  }

  lemma {:induction false} DoubledInMeaning(s: State, p: Property, code: string, id: nat, t: nat, n: nat)
    requires t < |s.tabs| && n <= |s.tabs[t]|
    ensures DoubledIn(s, p, code, id, t, n) == [] <==>
              forall k :: 0 <= k < n ==> !Doubles(s.cells, p, code, id, s.tabs[t][k])
  {
    if n > 0 { DoubledInMeaning(s, p, code, id, t, n - 1); }
  }

  lemma {:induction false} DoubledTabs(s: State, p: Property, code: string, id: nat, t: nat)
    requires t <= |s.tabs|
    ensures Doubled(s, p, code, id, t) == [] <==>
            forall u, k :: 0 <= u < t && 0 <= k < |s.tabs[u]| ==> !Doubles(s.cells, p, code, id, s.tabs[u][k])
  {
    if t > 0 {
      DoubledTabs(s, p, code, id, t - 1);
      DoubledInMeaning(s, p, code, id, t - 1, |s.tabs[t - 1]|);
    }
  }

  /** Nothing is reported exactly when no other cell of the kind, in any tab, has the code. */
  lemma DoubledMeaning(s: State, p: Property, code: string, id: nat)
    requires Placed(s) && id in s.cells
    ensures Doubled(s, p, code, id, |s.tabs|) == [] <==> !Taken(s.cells, s.cells[id].kind, {id}, p, code)
  {
    DoubledTabs(s, p, code, id, |s.tabs|);
    if Taken(s.cells, s.cells[id].kind, {id}, p, code) {
      var kind := s.cells[id].kind;
      var other :| other in s.cells && s.cells[other].kind == kind && other !in {id} && s.cells[other].Get(p) == code;
      BagMember(s.tabs, other);
      var t :| 0 <= t < |s.tabs| && other in s.tabs[t];
      var k :| 0 <= k < |s.tabs[t]| && s.tabs[t][k] == other;
      assert Doubles(s.cells, p, code, id, s.tabs[t][k]);
    }
  }

  /** The places reported are those of the other cells of the kind that carry the code. */
  lemma {:induction false} DoubledPlaces(s: State, p: Property, code: string, id: nat, t: nat, place: Place)
    requires t <= |s.tabs|
    ensures place in Doubled(s, p, code, id, t) <==>
            && place.graph < t && place.id in s.tabs[place.graph]
            && id in s.cells && place.id in s.cells && place.id != id && s.cells[place.id].kind == s.cells[id].kind
            && (match p case Status => s.cells[place.id].status case ActionCode => s.cells[place.id].actionCode) == code
  {
    if t > 0 {
      DoubledPlaces(s, p, code, id, t - 1, place);
      DoubledInPlaces(s, p, code, id, t - 1, |s.tabs[t - 1]|, place);
    }
  }

  lemma {:induction false} DoubledInPlaces(s: State, p: Property, code: string, id: nat, t: nat, n: nat, place: Place)
    requires t < |s.tabs| && n <= |s.tabs[t]|
    ensures place in DoubledIn(s, p, code, id, t, n) <==>
            place.graph == t && Doubles(s.cells, p, code, id, place.id) && place.id in s.tabs[t][..n]
  {
    if n > 0 {
      DoubledInPlaces(s, p, code, id, t, n - 1, place);
      assert s.tabs[t][..n] == s.tabs[t][..n - 1] + [s.tabs[t][n - 1]];
    }
  }

  // ----- the editor

  class Cell {
    const id: nat
    const kind: Kind
    var status: string
    var actionCode: string

    constructor (id: nat, state: CellState)
      ensures this.id == id && State() == state
    {
      this.id, this.kind, this.status, this.actionCode := id, state.kind, state.status, state.actionCode;
    }

    function State(): CellState
      reads this
    {
      CellState(kind, status, actionCode)
    }

    /** The text drawn on the cell for a property. */
    ghost function Shows(p: Property): string
      reads this
    {
      match p
      case Status => status
      case ActionCode => actionCode
    }

    /** `prop(property)` */
    function Prop(p: Property): (code: string)
      reads this
      ensures code == State().Get(p)
    {
      if p.Status? then status else actionCode
    }

    /** `prop(property, code)` */
    method SetProp(p: Property, code: string)
      modifies this
      ensures State() == old(State()).With(p, code)
    {
      if p.Status? { status := code; } else { actionCode := code; }
    }
  }

  ghost function CellsOf(graph: seq<seq<Cell>>): set<Cell> {
    set t, k | 0 <= t < |graph| && 0 <= k < |graph[t]| :: graph[t][k]
  }

  ghost predicate OneId(cells: set<Cell>) {
    forall c, d :: c in cells && d in cells && c.id == d.id ==> c == d
  }

  function Ids(tab: seq<Cell>): (ids: seq<nat>)
    ensures |ids| == |tab|
  {
    seq(|tab|, k requires 0 <= k < |tab| => tab[k].id)
  }

  function TabIds(graph: seq<seq<Cell>>): (tabs: seq<seq<nat>>)
    ensures |tabs| == |graph|
  {
    seq(|graph|, t requires 0 <= t < |graph| => Ids(graph[t]))
  }

  ghost function CellOf(cells: set<Cell>, id: nat): (c: Cell)
    requires exists c :: c in cells && c.id == id
    ensures c in cells && c.id == id
  {
    var c :| c in cells && c.id == id;
    c
  }

  ghost function States(cells: set<Cell>): (m: map<nat, CellState>)
    requires OneId(cells)
    reads cells
    ensures forall c :: c in cells ==> c.id in m && m[c.id] == c.State()
    ensures forall id :: id in m ==> exists c :: c in cells && c.id == id
  {
    map id | id in (set c | c in cells :: c.id) :: CellOf(cells, id).State()
  }

  /** The state that the graphs show. */
  ghost function Shown(graph: seq<seq<Cell>>): State
    requires OneId(CellsOf(graph))
    reads CellsOf(graph)
  {
    State(TabIds(graph), States(CellsOf(graph)))
  }

  ghost predicate Sound(graph: seq<seq<Cell>>)
    reads CellsOf(graph)
  {
    OneId(CellsOf(graph)) && Placed(Shown(graph))
  }

  lemma TakenCells(cells: set<Cell>, c: Cell, p: Property, code: string)
    requires OneId(cells) && c in cells
    ensures Taken(States(cells), c.kind, {c.id}, p, code) <==>
            !forall d :: d in cells && d != c && d.kind == c.kind ==> d.Shows(p) != code
  {
    var m := States(cells);
    if d :| d in cells && d != c && d.kind == c.kind && d.Shows(p) == code {
      assert d.id in m && m[d.id] == d.State();
    }
    if Taken(m, c.kind, {c.id}, p, code) {
      var id :| id in m && m[id].kind == c.kind && id !in {c.id} && m[id].Get(p) == code;
      var d :| d in cells && d.id == id;
      assert d.Shows(p) == code;
    }
  }

  class Project {
    var graph: seq<seq<Cell>>

    ghost function Cells(): set<Cell>
      reads this
    {
      CellsOf(graph)
    }

    ghost predicate Valid()
      reads this, Cells()
    {
      Sound(graph)
    }

    ghost function View(): State
      requires OneId(Cells())
      reads this, Cells()
    {
      Shown(graph)
    }

    constructor ()
      ensures Valid() && View() == State([], map[])
    {
      graph := [];
    }

    /** `getCell` over all graphs, as `validate` uses it */
    method FindKind(addid: nat) returns (found: bool, kind: Kind)
      requires Valid()
      ensures found <==> addid in View().cells
      ensures found ==> kind == View().cells[addid].kind
    {
      found, kind := false, StatusNode;
      for i := 0 to |graph|
        invariant found <==> exists t, k :: 0 <= t < i && 0 <= k < |graph[t]| && graph[t][k].id == addid
        invariant found ==> addid in View().cells && kind == View().cells[addid].kind
      {
        for j := 0 to |graph[i]|
          invariant found <==> exists t, k ::
                      0 <= t <= i && 0 <= k < (if t < i then |graph[t]| else j) && graph[t][k].id == addid
          invariant found ==> addid in View().cells && kind == View().cells[addid].kind
        {
          assert graph[i][j] in Cells();
          if graph[i][j].id == addid {
            found, kind := true, graph[i][j].kind;
          }
        }
      }
    }

    /** `validate` */
    method Validate(target: Property, toadd: string, addid: nat) returns (doubled: seq<Place>)
      requires Valid()
      ensures doubled == Doubled(View(), target, toadd, addid, |View().tabs|)
    {
      doubled := [];
      var found, targettype := FindKind(addid);
      ghost var s := View();
      for i := 0 to |graph|
        invariant doubled == Doubled(s, target, toadd, addid, i)
      {
        var more := ValidateTab(i, target, toadd, addid, found, targettype);
        assert |s.tabs[i]| == |graph[i]|;
        doubled := doubled + more;
      }
    }

    /** The inner loop of `validate`. */
    method ValidateTab(i: nat, target: Property, toadd: string, addid: nat, found: bool, targettype: Kind)
      returns (doubled: seq<Place>)
      requires Valid() && i < |graph| && (found <==> addid in View().cells)
      requires found ==> targettype == View().cells[addid].kind
      ensures doubled == DoubledIn(View(), target, toadd, addid, i, |graph[i]|)
    {
      doubled := [];
      ghost var s := View();
      for j := 0 to |graph[i]|
        invariant doubled == DoubledIn(s, target, toadd, addid, i, j)
      {
        var c := graph[i][j];
        assert c in Cells() && s.tabs[i][j] == c.id && s.cells[c.id] == c.State();
        if toadd == c.Prop(target) && addid != c.id && found && targettype == c.kind {
          doubled := doubled + [Place(i, c.id)];
        }
      }
    }

    // ----- changes

    /** Puts a cell into a graph. */
    method Insert(t: nat, c: Cell)
      requires Valid() && t < |graph| && c.id !in View().cells
      modifies this
      ensures Valid() && View() == AddCell(old(View()), t, c.id, c.State()) && Cells() == old(Cells()) + {c}
      ensures graph == old(graph)[t := old(graph)[t] + [c]]
    {
      Inserted(graph, t, c);
      graph := graph[t := graph[t] + [c]];
    }

    /** Sets the code of a cell that lies in a graph. */
    method SetCode(c: Cell, p: Property, code: string)
      requires Valid() && c in Cells()
      modifies c
      ensures Valid() && View() == SetAt(old(View()), c.id, p, code)
      ensures c.State() == old(c.State()).With(p, code)
    {
      ghost var was := View();
      c.SetProp(p, code);
      assert View().cells == was.cells[c.id := c.State()];
      assert View().cells.Keys == was.cells.Keys;
    }

    /** `initstatus` of a status node: the smallest number whose code no other status node has. */
    method InitStatus(c: Cell)
      requires Valid() && c in Cells() && c.kind.StatusNode?
      modifies c
      ensures Valid()
      ensures old(c.status) != "" ==> View() == old(View())
      ensures old(c.status) == "" ==> View() == WithNumber(old(View()), c.id, StatusNode, Status)
    {
      if c.status == "" {
        var i := FreeStatus(c);
        SetCode(c, Status, Code(Status, i));
      }
    }

    /** Its loop. */
    method FreeStatus(c: Cell) returns (i: nat)
      requires Valid() && c in Cells() && c.kind.StatusNode?
      ensures i == FreeNumber(View().cells, StatusNode, {c.id}, Status)
      ensures i <= |SameKind(View().cells, StatusNode, {c.id})| + 1
    {
      ghost var s := View();
      i := 1;
      while true
        invariant i >= 1 && AllTaken(s.cells, StatusNode, {c.id}, Status, i - 1)
        decreases |SameKind(s.cells, StatusNode, {c.id})| + 1 - i
      {
        Pigeonhole(s.cells, StatusNode, {c.id}, Status, i - 1);
        var taken := CodeTaken(c, Status, Code(Status, i));
        if !taken {
          SmallestFreeUnique(s.cells, StatusNode, {c.id}, Status, i, FreeNumber(s.cells, StatusNode, {c.id}, Status));
          return;
        }
        Pigeonhole(s.cells, StatusNode, {c.id}, Status, i);
        i := i + 1;
      }
    }

    /** Whether `validate` reports anything for a cell that lies in a graph. */
    method CodeTaken(c: Cell, p: Property, code: string) returns (taken: bool)
      requires Valid() && c in Cells()
      ensures taken <==> Taken(View().cells, c.kind, {c.id}, p, code)
    {
      DoubledMeaning(View(), p, code, c.id);
      var doubled := Validate(p, code, c.id);
      taken := doubled != [];
    }

    /** The count inside `initcode`: how often the links of all graphs carry the code. */
    method CountCode(code: string) returns (valid: nat)
      requires Valid()
      ensures valid == 0 <==> !Taken(View().cells, Rote, {}, ActionCode, code)
    {
      valid := 0;
      for t := 0 to |graph|
        invariant valid == 0 <==> NoneCarries(graph[..t], code)
      {
        var more := CountInGraph(t, code);
        valid := valid + more;
        assert graph[..t + 1] == graph[..t] + [graph[t]];
      }
      assert graph[..|graph|] == graph;
      CountedAll(graph, code);
    }

    method CountInGraph(t: nat, code: string) returns (valid: nat)
      requires t < |graph|
      ensures valid == 0 <==> forall k :: 0 <= k < |graph[t]| ==> !Carries(graph[t][k], code)
    {
      valid := 0;
      for k := 0 to |graph[t]|
        invariant valid == 0 <==> forall l :: 0 <= l < k ==> !Carries(graph[t][l], code)
      {
        if Carries(graph[t][k], code) { valid := valid + 1; }
      }
    }

    /** `initcode` of a link that is not yet in any graph. */
    method InitCode(c: Cell)
      requires Valid() && c.kind.Rote? && c !in Cells()
      modifies c
      ensures Valid() && View() == old(View())
      ensures old(c.actionCode) != "" ==> c.State() == old(c.State())
      ensures old(c.actionCode) == "" ==>
                var n := FreeNumber(View().cells, Rote, {}, ActionCode);
                c.State() == old(c.State()).With(ActionCode, Code(ActionCode, n))
    {
      if c.actionCode == "" {
        var i := FreeCode();
        SetOutside(c, Code(ActionCode, i));
      }
    }

    /** A cell in no graph gets a code. */
    method SetOutside(c: Cell, code: string)
      requires Valid() && c !in Cells()
      modifies c
      ensures Valid() && View() == old(View()) && c.State() == old(c.State()).With(ActionCode, code)
    {
      c.SetProp(ActionCode, code);
    }

    method FreeCode() returns (i: nat)
      requires Valid()
      ensures i == FreeNumber(View().cells, Rote, {}, ActionCode)
      ensures i <= |SameKind(View().cells, Rote, {})| + 1
    {
      ghost var s := View();
      i := 1;
      while true
        invariant i >= 1 && AllTaken(s.cells, Rote, {}, ActionCode, i - 1)
        decreases |SameKind(s.cells, Rote, {})| + 1 - i
      {
        Pigeonhole(s.cells, Rote, {}, ActionCode, i - 1);
        var valid := CountCode(Code(ActionCode, i));
        if valid == 0 {
          SmallestFreeUnique(s.cells, Rote, {}, ActionCode, i, FreeNumber(s.cells, Rote, {}, ActionCode));
          return;
        }
        Pigeonhole(s.cells, Rote, {}, ActionCode, i);
        i := i + 1;
      }
    }

    /** `Tab_Add` */
    method AddTab()
      requires Valid()
      modifies this
      ensures Valid() && View() == Apply(old(View()), Step.AddTab) && Cells() == old(Cells())
      ensures graph == old(graph) + [[]]
    {
      ghost var was := View();
      ghost var before := graph;
      graph := graph + [[]];
      assert forall t, k :: 0 <= t < |before| && 0 <= k < |before[t]| ==> graph[t][k] == before[t][k];
      assert Cells() == CellsOf(before);
      assert View().tabs == was.tabs + [[]];
      StepPlaced(was, Step.AddTab);
    }

    /** A status node is added, drawn and so numbered. */
    method AddNode(t: nat, id: nat) returns (c: Cell)
      requires Valid() && t < |graph| && id !in View().cells
      modifies this
      ensures Valid() && fresh(c) && View() == NewNode(old(View()), t, id) && Cells() == old(Cells()) + {c}
      ensures graph == old(graph)[t := old(graph)[t] + [c]] && c.id == id
    {
      NumberedNode(View(), t, id);
      ghost var was := View();
      c := new Cell(id, CellState(StatusNode, "", ""));
      assert View() == was;
      Insert(t, c);
      assert View() == AddCell(was, t, id, CellState(StatusNode, "", ""));
      InitStatus(c);
    }

    /** A link is made and so numbered, then added. */
    method AddLink(t: nat, id: nat) returns (c: Cell)
      requires Valid() && t < |graph| && id !in View().cells
      modifies this
      ensures Valid() && fresh(c) && View() == NewLink(old(View()), t, id) && Cells() == old(Cells()) + {c}
      ensures graph == old(graph)[t := old(graph)[t] + [c]] && c.id == id
    {
      ghost var was := View();
      c := new Cell(id, CellState(Rote, "", ""));
      assert View() == was;
      InitCode(c);
      assert c.State() == CellState(Rote, "", Code(ActionCode, FreeNumber(was.cells, Rote, {}, ActionCode)));
      Insert(t, c);
    }

    /** The handlers of `editbox-update` and `editlink-update`: a code is accepted when no other cell of the kind has
        it. */
    method Edit(c: Cell, p: Property, code: string) returns (accepted: bool)
      requires Valid() && c in Cells() && Numbers(p, c.kind)
      modifies c
      ensures Valid() && View() == Edited(old(View()), c.id, p, code)
      ensures accepted <==> forall d :: d in Cells() && d != c && d.kind == c.kind ==> old(d.Shows(p)) != code
      ensures c.status == if accepted && p.Status? then code else old(c.status)
      ensures c.actionCode == if accepted && p.ActionCode? then code else old(c.actionCode)
      ensures graph == old(graph) && forall d :: d in Cells() && d != c ==> d.State() == old(d.State())
    {
      var taken := CodeTaken(c, p, code);
      TakenCells(Cells(), c, p, code);
      accepted := !taken;
      if accepted {
        SetCode(c, p, code);
      }
    }

    /** `cell.remove()` */
    method Remove(t: nat, k: nat)
      requires Valid() && t < |graph| && k < |graph[t]|
      modifies this
      ensures Valid() && View() == RemoveCell(old(View()), t, k)
      ensures graph == old(graph)[t := old(graph)[t][..k] + old(graph)[t][k + 1..]]
    {
      ghost var after := graph[t := graph[t][..k] + graph[t][k + 1..]];
      Removed(graph, t, k);
      graph := graph[t := graph[t][..k] + graph[t][k + 1..]];
      assert graph == after;
    }

    /** `Tab_Close` */
    method CloseTab(t: nat)
      requires Valid() && t < |graph|
      modifies this
      ensures Valid() && View() == DropTab(old(View()), t)
      ensures graph == old(graph)[..t] + old(graph)[t + 1..]
    {
      Closed(graph, t);
      graph := graph[..t] + graph[t + 1..];
    }
  }

  predicate Carries(c: Cell, code: string)
    reads c
  {
    c.kind.Rote? && c.actionCode == code
  }

  predicate NoneCarries(graph: seq<seq<Cell>>, code: string)
    reads CellsOf(graph)
  {
    forall u, k :: 0 <= u < |graph| && 0 <= k < |graph[u]| ==> !Carries(graph[u][k], code)
  }

  lemma CountedAll(graph: seq<seq<Cell>>, code: string)
    requires OneId(CellsOf(graph))
    ensures NoneCarries(graph, code) <==> !Taken(States(CellsOf(graph)), Rote, {}, ActionCode, code)
  {
    var m := States(CellsOf(graph));
    if !NoneCarries(graph, code) {
      var u, k :| 0 <= u < |graph| && 0 <= k < |graph[u]| && Carries(graph[u][k], code);
      assert graph[u][k] in CellsOf(graph);
      assert m[graph[u][k].id].Get(ActionCode) == code;
    }
    if Taken(m, Rote, {}, ActionCode, code) {
      var id :| id in m && m[id].kind == Rote && id !in {} && m[id].Get(ActionCode) == code;
      var c :| c in CellsOf(graph) && c.id == id;
      assert Carries(c, code);
    }
  }

  ghost function WithNumber(s: State, id: nat, kind: Kind, p: Property): State
    requires id in s.cells
  {
    s.(cells := s.cells[id := s.cells[id].With(p, Code(p, FreeNumber(s.cells, kind, {id}, p)))])
  }

  lemma NumberedNode(s: State, t: nat, id: nat)
    requires t < |s.tabs| && id !in s.cells
    ensures WithNumber(AddCell(s, t, id, CellState(StatusNode, "", "")), id, StatusNode, Status) == NewNode(s, t, id)
  {
    FreeNumberOthers(s.cells, id, CellState(StatusNode, "", ""), StatusNode, Status);
  }

  lemma Inserted(graph: seq<seq<Cell>>, t: nat, c: Cell)
    requires t < |graph| && Sound(graph) && c.id !in Shown(graph).cells
    ensures var after := graph[t := graph[t] + [c]];
            && CellsOf(after) == CellsOf(graph) + {c} && Sound(after)
            && Shown(after) == AddCell(Shown(graph), t, c.id, c.State())
  {
    var after := graph[t := graph[t] + [c]];
    InsertedCells(graph, t, c);
    AddedState(CellsOf(graph), c);
    assert Ids(after[t]) == Ids(graph[t]) + [c.id];
    assert TabIds(after) == TabIds(graph)[t := TabIds(graph)[t] + [c.id]];
    AddedPlaced(Shown(graph), t, c.id, c.State());
  }

  lemma AddedState(cells: set<Cell>, c: Cell)
    requires OneId(cells) && c.id !in States(cells)
    ensures OneId(cells + {c}) && States(cells + {c}) == States(cells)[c.id := c.State()]
  {
  }

  lemma InsertedCells(graph: seq<seq<Cell>>, t: nat, c: Cell)
    requires t < |graph|
    ensures CellsOf(graph[t := graph[t] + [c]]) == CellsOf(graph) + {c}
  {
    var after := graph[t := graph[t] + [c]];
    assert after[t][|graph[t]|] == c;
    forall d | d in CellsOf(graph) ensures d in CellsOf(after) {
      var u, k :| 0 <= u < |graph| && 0 <= k < |graph[u]| && graph[u][k] == d;
      assert after[u][k] == d;
    }
  }

  lemma Removed(graph: seq<seq<Cell>>, t: nat, k: nat)
    requires Sound(graph) && t < |graph| && k < |graph[t]|
    ensures var after := graph[t := graph[t][..k] + graph[t][k + 1..]];
            Sound(after) && Shown(after) == RemoveCell(Shown(graph), t, k)
  {
    RemovedPlaced(Shown(graph), t, k);
    RemovedTab(graph, t, k);
    Dropped(graph, graph[t := graph[t][..k] + graph[t][k + 1..]], RemoveCell(Shown(graph), t, k), {graph[t][k].id});
  }

  lemma RemovedTab(graph: seq<seq<Cell>>, t: nat, k: nat)
    requires t < |graph| && k < |graph[t]|
    ensures var after := graph[t := graph[t][..k] + graph[t][k + 1..]];
            var ids := TabIds(graph);
            CellsOf(after) <= CellsOf(graph) && TabIds(after) == ids[t := ids[t][..k] + ids[t][k + 1..]]
  {
    var tab := graph[t][..k] + graph[t][k + 1..];
    assert Ids(tab) == Ids(graph[t])[..k] + Ids(graph[t])[k + 1..];
    var after := graph[t := tab];
    forall c | c in CellsOf(after) ensures c in CellsOf(graph) {
      var u, l :| 0 <= u < |after| && 0 <= l < |after[u]| && after[u][l] == c;
      assert u == t && l >= k ==> c == graph[t][l + 1];
    }
  }

  lemma {:induction false} Closed(graph: seq<seq<Cell>>, t: nat)
    requires Sound(graph) && t < |graph|
    ensures var after := graph[..t] + graph[t + 1..]; Sound(after) && Shown(after) == DropTab(Shown(graph), t)
  {
    ClosedPlaced(Shown(graph), t);
    ClosedTab(graph, t);
    Dropped(graph, graph[..t] + graph[t + 1..], DropTab(Shown(graph), t), set id | id in Ids(graph[t]));
  }

  lemma ClosedTab(graph: seq<seq<Cell>>, t: nat)
    requires t < |graph|
    ensures var after := graph[..t] + graph[t + 1..];
            CellsOf(after) <= CellsOf(graph) && TabIds(after) == TabIds(graph)[..t] + TabIds(graph)[t + 1..]
  {
  }

  /** Some tab lists an id exactly when some cell has it. */
  lemma TabsList(graph: seq<seq<Cell>>, id: nat)
    ensures id in Bag(TabIds(graph)) <==> exists c :: c in CellsOf(graph) && c.id == id
  {
    var tabs := TabIds(graph);
    BagMember(tabs, id);
    if c :| c in CellsOf(graph) && c.id == id {
      var t, k :| 0 <= t < |graph| && 0 <= k < |graph[t]| && graph[t][k] == c;
      assert tabs[t][k] == id;
    }
    if t :| 0 <= t < |tabs| && id in tabs[t] {
      var k :| 0 <= k < |tabs[t]| && tabs[t][k] == id;
      assert graph[t][k] in CellsOf(graph);
    }
  }

  /** Graphs with some of the cells, placed as a state says, show that state. */
  lemma Dropped(graph: seq<seq<Cell>>, after: seq<seq<Cell>>, s: State, gone: set<nat>)
    requires OneId(CellsOf(graph)) && CellsOf(after) <= CellsOf(graph)
    requires Placed(s) && s.tabs == TabIds(after) && s.cells == States(CellsOf(graph)) - gone
    ensures Sound(after) && Shown(after) == s
  {
    forall id ensures id in s.cells <==> exists c :: c in CellsOf(after) && c.id == id {
      TabsList(after, id);
      assert id in multiset(s.cells.Keys) <==> id in s.cells;
    }
    DroppedState(CellsOf(graph), CellsOf(after), s.cells);
  }

  lemma DroppedState(all: set<Cell>, rest: set<Cell>, m: map<nat, CellState>)
    requires OneId(all) && rest <= all
    requires forall id :: id in m <==> exists c :: c in rest && c.id == id
    requires forall id :: id in m && id in States(all) ==> m[id] == States(all)[id]
    ensures OneId(rest) && States(rest) == m
  {
  }
}
