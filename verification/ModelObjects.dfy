/** Backbone's model as an object. Each of its steps does to the fields what the step of the machine of `ModelEvents`
    says, so what is proved of the runs of the machine holds of the object. */
module ModelObjects {
  import opened Options
  import opened ModelChanges
  import opened ModelEvents

  /** `frames` are the calls in progress, outermost first; the ghost fields are the rest of the history. */
  class Model<V(==)> {
    const idAttribute: string
    var attributes: Attributes<V>
    var previousAttributes: Attributes<V>
    var changed: Attributes<V>
    var id: Val<V>
    var pending: Option<SetOptions>
    var changing: bool
    var frames: seq<Frame>
    ghost var log: seq<Entry<V>>
    ghost var start: Attributes<V>

    /** A model before its first `set`. */
    constructor (idAttribute: string)
      ensures this.idAttribute == idAttribute && Now() == Init()
    {
      this.idAttribute := idAttribute;
      attributes, previousAttributes, changed, id, pending, changing := map[], map[], map[], Undefined, None, false;
      frames, log, start := [], [], map[];
    }

    function View(): Fields<V>
      reads this
    {
      Fields(attributes, previousAttributes, changed, id, pending, changing)
    }

    ghost function Now(): Machine<V>
      reads this
    {
      Machine(View(), frames, log, start)
    }

    /** `set`, up to its first event: user code calls it, outside or in a handler. */
    method Set(attrs: seq<Pair<V>>, options: SetOptions)
      requires Distinct(attrs)
      modifies this
      ensures Now() == Call(old(Now()), idAttribute, attrs, options)
    {
      ghost var outermost := frames == [];
      ghost var was := attributes;
      var nested, changes := BeginSet(attrs, options);
      frames := frames + [Frame(options.silent, if options.silent then [] else changes, Attrs(0))];
      log := log + Writes(changes, options);
      if outermost { start := was; }
    }

    /** The rest of `set`, from one event to the next: the running call starts its next event, or returns. */
    method Proceed()
      requires !UserRuns(Now())
      modifies this
      ensures Now() == Next(old(Now()))
    {
      var top := frames[|frames| - 1];
      if top.phase.Attrs? && top.phase.i < |top.changes| {
        var attr := top.changes[top.phase.i];
        MoveTo(InAttr(top.phase.i));
        log := log + [AttrEvent(attr, Get(attributes, attr))];
      } else if top.phase.Attrs? && |frames| > 1 {
        frames := frames[..|frames| - 1];
      } else if top.phase.Attrs? && !top.silent {
        MoveTo(Loop);
      } else if top.phase.Loop? && pending.Some? {
        var given := pending.value;
        pending := None;
        MoveTo(InChange);
        log := log + [ChangeEvent(given)];
      } else {
        pending, changing := None, false;
        frames := [];
      }
    }

    /** The handlers of the running event have returned. */
    method EndEvent()
      requires UserRuns(Now()) && frames != []
      modifies this
      ensures Now() == End(old(Now()))
    {
      var top := frames[|frames| - 1];
      MoveTo(if top.phase.InAttr? then Attrs(top.phase.i + 1) else Loop);
    }

    method MoveTo(phase: Phase)
      requires frames != []
      modifies this`frames
      ensures frames == WithTop(old(frames), phase)
    {
      frames := frames[..|frames| - 1] + [frames[|frames| - 1].(phase := phase)];
    }

    /** `set`, up to the first event: what it was nested in, and what it changed. */
    method BeginSet(attrs: seq<Pair<V>>, options: SetOptions) returns (nested: bool, changes: seq<string>)
      requires Distinct(attrs)
      modifies this`attributes, this`previousAttributes, this`changed, this`id, this`pending, this`changing
      ensures View() == Begin(old(View()), idAttribute, attrs, options)
      ensures nested == old(changing) && changes == Changes(old(attributes), attrs)
    {
      nested := changing;
      changing := true;
      if !nested {
        previousAttributes := attributes;
        changed := map[];
      }
      changes := AssignEach(attrs, options.unset);
      if exists i :: 0 <= i < |attrs| && attrs[i].attr == idAttribute {
        id := Get(attributes, idAttribute);
      }
      if !options.silent && changes != [] {
        pending := Some(options);
      }
    }

    /** Its loop over the attributes. */
    method AssignEach(attrs: seq<Pair<V>>, unset: bool) returns (changes: seq<string>)
      requires Distinct(attrs)
      modifies this`attributes, this`changed
      ensures attributes == AssignAll(old(attributes), attrs, unset)
      ensures changed == RecordAll(old(changed), previousAttributes, attrs)
      ensures changes == Changes(old(attributes), attrs)
    {
      changes := [];
      for i := 0 to |attrs|
        invariant attributes == AssignAll(old(attributes), attrs[..i], unset)
        invariant changed == RecordAll(old(changed), previousAttributes, attrs[..i])
        invariant changes == Changes(old(attributes), attrs[..i])
      {
        var attr, val := attrs[i].attr, attrs[i].val;
        Untouched(old(attributes), old(changed), previousAttributes, attrs[..i], unset, attr);
        assert attrs[..i + 1][..i] == attrs[..i];
        if Get(attributes, attr) != val {
          changes := changes + [attr];
        }
        if Get(previousAttributes, attr) != val {
          changed := changed[attr := val];
        } else {
          changed := changed - {attr};
        }
        attributes := if unset then attributes - {attr} else attributes[attr := val];
      }
      assert attrs[..|attrs|] == attrs;
    }
  }
}
