/** Backbone `Model.set`: attributes, the record of what changed, and the events of nested calls. */
module ModelChanges {
  import opened Options

  /** An attribute value; two values are equal when `_.isEqual` says so. */
  datatype Val<+V> = Undefined | Defined(v: V)

  datatype Pair<+V> = Pair(attr: string, val: Val<V>)

  /** The options of a call; `tag` stands for what else they carry. */
  datatype SetOptions = SetOptions(tag: nat, unset: bool, silent: bool)

  type Attributes<V> = map<string, Val<V>>

  function Get<V>(m: Attributes<V>, attr: string): Val<V> {
    if attr in m then m[attr] else Undefined
  }

  // ----- the loop of one call

  function Assign<V>(m: Attributes<V>, p: Pair<V>, unset: bool): Attributes<V> {
    if unset then m - {p.attr} else m[p.attr := p.val]
  }

  function Record<V(==)>(changed: Attributes<V>, prev: Attributes<V>, p: Pair<V>): Attributes<V> {
    if Get(prev, p.attr) != p.val then changed[p.attr := p.val] else changed - {p.attr}
  }

  function AssignAll<V>(m: Attributes<V>, attrs: seq<Pair<V>>, unset: bool): Attributes<V> {
    if attrs == [] then m
    else Assign(AssignAll(m, attrs[..|attrs| - 1], unset), attrs[|attrs| - 1], unset)
  }

  function RecordAll<V(==)>(changed: Attributes<V>, prev: Attributes<V>, attrs: seq<Pair<V>>): Attributes<V> {
    if attrs == [] then changed
    else Record(RecordAll(changed, prev, attrs[..|attrs| - 1]), prev, attrs[|attrs| - 1])
  }

  /** The attributes that a call changes, in its order. */
  function Changes<V(==)>(m: Attributes<V>, attrs: seq<Pair<V>>): seq<string> {
    if attrs == [] then []
    else
      var p := attrs[|attrs| - 1];
      Changes(m, attrs[..|attrs| - 1]) + if Get(m, p.attr) != p.val then [p.attr] else []
  }

  /** The keys of an object. */
  predicate Distinct<V>(attrs: seq<Pair<V>>) {
    forall i, j :: 0 <= i < j < |attrs| ==> attrs[i].attr != attrs[j].attr
  }

  /** What `unset` and `clear` pass. */
  predicate UnsetsUndefined<V>(attrs: seq<Pair<V>>, unset: bool) {
    unset ==> forall i :: 0 <= i < |attrs| ==> attrs[i].val.Undefined?
  }

  // ----- the difference

  ghost predicate DiffersAt<V>(changed: Attributes<V>, prev: Attributes<V>, now: Attributes<V>, attr: string) {
    && (attr in changed <==> Get(prev, attr) != Get(now, attr))
    && (attr in changed ==> changed[attr] == Get(now, attr))
  }

  /** `changed` holds exactly the attributes whose value differs, with the current value; undefined if it is gone. */
  ghost predicate IsDifference<V>(changed: Attributes<V>, prev: Attributes<V>, now: Attributes<V>) {
    forall attr :: DiffersAt(changed, prev, now, attr)
  }

  lemma {:induction false} Untouched<V>(m: Attributes<V>, changed: Attributes<V>, prev: Attributes<V>,
                                        attrs: seq<Pair<V>>,
                                        unset: bool, attr: string)
    requires forall i :: 0 <= i < |attrs| ==> attrs[i].attr != attr
    ensures Get(AssignAll(m, attrs, unset), attr) == Get(m, attr)
    ensures var r := RecordAll(changed, prev, attrs);
            (attr in r <==> attr in changed) && (attr in r ==> r[attr] == changed[attr])
  {
    if attrs != [] { Untouched(m, changed, prev, attrs[..|attrs| - 1], unset, attr); }
  }

  /** At an attribute that the call names the record is right exactly when an unset value is undefined. */
  lemma {:induction false} Touched<V>(m: Attributes<V>, changed: Attributes<V>, prev: Attributes<V>,
                                      attrs: seq<Pair<V>>,
                                      unset: bool, i: nat)
    requires Distinct(attrs) && i < |attrs|
    ensures DiffersAt(RecordAll(changed, prev, attrs), prev, AssignAll(m, attrs, unset), attrs[i].attr)
            <==> (unset ==> attrs[i].val.Undefined?)
    ensures Get(AssignAll(m, attrs, unset), attrs[i].attr) == if unset then Undefined else attrs[i].val
  {
    var n := |attrs| - 1;
    if i < n {
      Touched(m, changed, prev, attrs[..n], unset, i);
    }
  }

  /** A call turns a true record into a true record exactly when it unsets with undefined only. */
  lemma RecordExact<V>(m: Attributes<V>, changed: Attributes<V>, prev: Attributes<V>, attrs: seq<Pair<V>>, unset: bool)
    requires Distinct(attrs) && IsDifference(changed, prev, m)
    ensures IsDifference(RecordAll(changed, prev, attrs), prev, AssignAll(m, attrs, unset)) <==>
              UnsetsUndefined(attrs, unset)
  {
    forall i | 0 <= i < |attrs|
      ensures DiffersAt(RecordAll(changed, prev, attrs), prev, AssignAll(m, attrs, unset), attrs[i].attr)
              <==> (unset ==> attrs[i].val.Undefined?)
    {
      Touched(m, changed, prev, attrs, unset, i);
    }
    forall attr | forall i :: 0 <= i < |attrs| ==> attrs[i].attr != attr
      ensures DiffersAt(RecordAll(changed, prev, attrs), prev, AssignAll(m, attrs, unset), attr)
    {
      Untouched(m, changed, prev, attrs, unset, attr);
      assert DiffersAt(changed, prev, m, attr);
    }
  }

  /** Unsetting an attribute with a defined value records that value as the current one, although the attribute is
      gone. */
  lemma UnsetWithValueFails()
    ensures var m: Attributes<int> := map["a" := Defined(1)];
            var attrs := [Pair("a", Defined(2))];
            var now, changed := AssignAll(m, attrs, true), RecordAll(map[], m, attrs);
            now == map[] && changed == map["a" := Defined(2)] && !IsDifference(changed, m, now)
  {
    var m: Attributes<int> := map["a" := Defined(1)];
    var attrs := [Pair("a", Defined(2))];
    assert attrs[..0] == [];
    assert AssignAll(m, attrs, true) == map[];
    assert !DiffersAt(RecordAll(map[], m, attrs), m, AssignAll(m, attrs, true), "a");
  }

  /** Each change is an attribute whose value the call alters. */
  lemma {:induction false} ChangesMeaning<V>(m: Attributes<V>, attrs: seq<Pair<V>>, i: nat)
    requires Distinct(attrs) && i < |attrs|
    ensures attrs[i].attr in Changes(m, attrs) <==> Get(m, attrs[i].attr) != attrs[i].val
    ensures forall a :: a in Changes(m, attrs) ==> exists j :: 0 <= j < |attrs| && attrs[j].attr == a
  {
    var n := |attrs| - 1;
    ChangesNamed(m, attrs);
    ChangesNamed(m, attrs[..n]);
    if i < n { ChangesMeaning(m, attrs[..n], i); }
  }

  lemma {:induction false} ChangesNamed<V>(m: Attributes<V>, attrs: seq<Pair<V>>)
    ensures forall a :: a in Changes(m, attrs) ==> exists j :: 0 <= j < |attrs| && attrs[j].attr == a
  {
    if attrs != [] {
      var n := |attrs| - 1;
      ChangesNamed(m, attrs[..n]);
      forall a | a in Changes(m, attrs) ensures exists j :: 0 <= j < |attrs| && attrs[j].attr == a {
        if a in Changes(m, attrs[..n]) {
          var j :| 0 <= j < n && attrs[..n][j].attr == a;
          assert attrs[j].attr == a;
        } else {
          assert attrs[n].attr == a;
        }
      }
    }
  }

  // ----- the fields of a model

  datatype Fields<V> = Fields(attributes: Attributes<V>, prev: Attributes<V>, changed: Attributes<V>, id: Val<V>,
                              pending: Option<SetOptions>, changing: bool)

  /** A call up to its first event. */
  function Begin<V(==)>(f: Fields<V>, idAttribute: string, attrs: seq<Pair<V>>, o: SetOptions): Fields<V> {
    var prev := if f.changing then f.prev else f.attributes;
    var attributes := AssignAll(f.attributes, attrs, o.unset);
    Fields(
      attributes,
      prev,
      RecordAll(if f.changing then f.changed else map[], prev, attrs),
      if exists i :: 0 <= i < |attrs| && attrs[i].attr == idAttribute then Get(attributes, idAttribute) else f.id,
      if !o.silent && Changes(f.attributes, attrs) != [] then Some(o) else f.pending,
      true)
  }
}
