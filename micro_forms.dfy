/**
 * The data lifecycle of the form component in micro-forms.js: the initial
 * data folded out of the definition's fields, the update made when a field
 * changes, and the gate a submission passes through. The component keeps
 * its own hook bus; host code extends it through four filter tags.
 */
module MicroForms {
  import opened Wrappers
  import opened JsValues
  import opened FormDefinition
  import opened HookBus
  import Validation

  // ---------------------------------------------------------------------------
  // Initial data

  /** Whether a field brings a start value: an own `value` or `selected` property. */
  predicate HasStart(c: FieldDef) {
    c.value.Some? || c.selected.Some?
  }

  /** A field's start value: `selected` wins over `value`. */
  function Start(c: FieldDef): Value
    requires HasStart(c)
  {
    if c.selected.Some? then c.selected.value else c.value.value
  }

  /** `setData(c, p)`: copy the field's `value`, then its `selected`, under its name. */
  function SetData(c: FieldDef, p: map<string, Value>): map<string, Value> {
    var withValue := if c.value.Some? then p[c.name := c.value.value] else p;
    if c.selected.Some? then withValue[c.name := c.selected.value] else withValue
  }

  /** `setData` over a list of fields, first to last. */
  function SetAll(fields: seq<FieldDef>, p: map<string, Value>): map<string, Value> {
    if fields == [] then p
    else SetData(fields[|fields| - 1], SetAll(fields[..|fields| - 1], p))
  }

  /** One step of the `reduce`: a section sets its children, any other field sets itself. */
  function FoldField(current: FieldDef, prev: map<string, Value>): map<string, Value> {
    if current.kind == "section" then SetAll(current.children, prev) else SetData(current, prev)
  }

  /** The `reduce` over the definition's fields. */
  function FoldFields(fields: seq<FieldDef>, prev: map<string, Value>): map<string, Value> {
    if fields == [] then prev
    else FoldField(fields[|fields| - 1], FoldFields(fields[..|fields| - 1], prev))
  }

  /** The data a form starts with. */
  function InitialData(fields: seq<FieldDef>): map<string, Value> {
    FoldFields(fields, map[])
  }

  /** The fields that hold data: sections are replaced by their children. */
  function Flatten(fields: seq<FieldDef>): seq<FieldDef> {
    if fields == [] then []
    else
      var last := fields[|fields| - 1];
      Flatten(fields[..|fields| - 1]) + (if last.kind == "section" then last.children else [last])
  }

  lemma {:induction false} SetAllAppend(a: seq<FieldDef>, b: seq<FieldDef>, p: map<string, Value>)
    ensures SetAll(a + b, p) == SetAll(b, SetAll(a, p))
    decreases |b|
  {
    if b == [] {
      assert a + b == a;
    } else {
      SetAllAppend(a, b[..|b| - 1], p);
      assert (a + b)[..|a + b| - 1] == a + b[..|b| - 1];
    }
  }

  /** Folding the definition is setting the data of its flattened fields in order. */
  lemma {:induction false} FoldFieldsFlatten(fields: seq<FieldDef>, p: map<string, Value>)
    ensures FoldFields(fields, p) == SetAll(Flatten(fields), p)
  {
    if fields != [] {
      var init := fields[..|fields| - 1];
      var last := fields[|fields| - 1];
      FoldFieldsFlatten(init, p);
      var tail := if last.kind == "section" then last.children else [last];
      SetAllAppend(Flatten(init), tail, p);
      if last.kind != "section" {
        assert [last][..0] == [];
      }
    }
  }

  /**
   * The fields of the flattened definition: every non-section field and every
   * child of a section, and nothing else (a section itself holds no data).
   */
  lemma {:induction false} FlattenMembers(fields: seq<FieldDef>, e: FieldDef)
    ensures e in Flatten(fields) <==> exists i :: 0 <= i < |fields| && Contributes(fields[i], e)
  {
    if fields != [] {
      var init, last := fields[..|fields| - 1], fields[|fields| - 1];
      FlattenMembers(init, e);
      FlattenLast(fields, e);
      assert forall i :: 0 <= i < |init| ==> init[i] == fields[i];
      if Contributes(last, e) {
        assert Contributes(fields[|fields| - 1], e);
      }
    }
  }

  /** A field puts `e` into the data fold: it is `e` and not a section, or a section with child `e`. */
  predicate Contributes(field: FieldDef, e: FieldDef) {
    (field.kind != "section" && field == e) || (field.kind == "section" && e in field.children)
  }

  lemma FlattenLast(fields: seq<FieldDef>, e: FieldDef)
    requires fields != []
    ensures e in Flatten(fields) <==> e in Flatten(fields[..|fields| - 1]) || Contributes(fields[|fields| - 1], e)
  {
  }

  /** Setting fields none of which has a start value under `k` leaves `k` as it was. */
  lemma {:induction false} SetAllUntouched(fields: seq<FieldDef>, p: map<string, Value>, k: string)
    requires forall i :: 0 <= i < |fields| && fields[i].name == k ==> !HasStart(fields[i])
    ensures k in SetAll(fields, p) <==> k in p
    ensures k in p ==> SetAll(fields, p)[k] == p[k]
  {
    if fields != [] {
      SetAllUntouched(fields[..|fields| - 1], p, k);
    }
  }

  /** The last field with a start value under `k` decides the entry for `k`. */
  lemma {:induction false} SetAllLastWriter(fields: seq<FieldDef>, p: map<string, Value>, k: string, i: nat)
    requires i < |fields| && fields[i].name == k && HasStart(fields[i])
    requires forall j :: i < j < |fields| && fields[j].name == k ==> !HasStart(fields[j])
    ensures k in SetAll(fields, p) && SetAll(fields, p)[k] == Start(fields[i])
  {
    var init := fields[..|fields| - 1];
    if i == |fields| - 1 {
    } else {
      SetAllLastWriter(init, p, k, i);
    }
  }

  /**
   * The initial data holds a key exactly when a data-holding field of that
   * name brings a start value, and then the last such field's value.
   */
  lemma InitialDataEntries(fields: seq<FieldDef>, k: string)
    ensures var flat := Flatten(fields);
      && (k in InitialData(fields) <==> exists i :: 0 <= i < |flat| && flat[i].name == k && HasStart(flat[i]))
      && (forall i :: 0 <= i < |flat| && flat[i].name == k && HasStart(flat[i])
            && (forall j :: i < j < |flat| && flat[j].name == k ==> !HasStart(flat[j]))
            ==> k in InitialData(fields) && InitialData(fields)[k] == Start(flat[i]))
  {
    var flat := Flatten(fields);
    FoldFieldsFlatten(fields, map[]);
    if exists i :: 0 <= i < |flat| && flat[i].name == k && HasStart(flat[i]) {
      var i := LastStart(flat, k);
      SetAllLastWriter(flat, map[], k, i);
    } else {
      SetAllUntouched(flat, map[], k);
    }
    forall i | 0 <= i < |flat| && flat[i].name == k && HasStart(flat[i])
               && (forall j :: i < j < |flat| && flat[j].name == k ==> !HasStart(flat[j]))
      ensures k in InitialData(fields) && InitialData(fields)[k] == Start(flat[i])
    {
      SetAllLastWriter(flat, map[], k, i);
    }
  }

  /** The index of the last field named `k` with a start value. */
  function LastStart(fields: seq<FieldDef>, k: string): (i: nat)
    requires exists i :: 0 <= i < |fields| && fields[i].name == k && HasStart(fields[i])
    ensures i < |fields| && fields[i].name == k && HasStart(fields[i])
    ensures forall j :: i < j < |fields| && fields[j].name == k ==> !HasStart(fields[j])
  {
    var last := |fields| - 1;
    if fields[last].name == k && HasStart(fields[last]) then last
    else
      assert exists i :: 0 <= i < |fields[..last]| && fields[..last][i].name == k && HasStart(fields[..last][i]) by {
        var i :| 0 <= i < |fields| && fields[i].name == k && HasStart(fields[i]);
        assert i < last && fields[..last][i] == fields[i];
      }
      var i := LastStart(fields[..last], k);
      assert fields[..last][i] == fields[i];
      i
  }

  // ---------------------------------------------------------------------------
  // The submit gate

  /** How a submission ends. */
  datatype SubmitOutcome =
    | Blocked(errors: Value)                 // the payload's errors are shown, nothing is emitted
    | Submitted(data: map<string, Value>)    // the data the submit events carry
    | Threw                                  // a property of `undefined` or `null` was read

  /**
   * The decision after the `submitting` filters: block when the payload's
   * `errors` has a key, otherwise emit a copy of the payload without
   * `errors` (or of the form data, when the payload is falsy).
   */
  function Gate(payload: Value, data: map<string, Value>): SubmitOutcome {
    if payload.Undefined? || payload.Null? then Threw
    else
      var errors := Prop(payload, "errors");
      if HasOwnKeys(if Truthy(errors) then errors else Obj(map[])) then Blocked(errors)
      else Submitted(if Truthy(payload) then OwnProps(payload) - {"errors"} else data)
  }

  /**
   * A defined payload is blocked exactly when its `errors` has a key; what is
   * submitted never carries `errors`, provided the form data does not.
   */
  lemma GateDecision(payload: Value, data: map<string, Value>)
    ensures payload.Undefined? || payload.Null? ==> Gate(payload, data) == Threw
    ensures !payload.Undefined? && !payload.Null? ==>
      (Gate(payload, data).Blocked? <==> Truthy(Prop(payload, "errors")) && HasOwnKeys(Prop(payload, "errors")))
    ensures "errors" !in data && Gate(payload, data).Submitted? ==> "errors" !in Gate(payload, data).data
  {
  }

  /** An object payload without errors is submitted as it is. */
  lemma GatePassesCleanPayload(props: map<string, Value>, data: map<string, Value>)
    requires "errors" !in props
    ensures Gate(Obj(props), data) == Submitted(props)
  {
    assert props - {"errors"} == props;
  }

  // ---------------------------------------------------------------------------
  // The component

  class MicroForm {
    const bus: Bus
    var data: Option<map<string, Value>>

    /** A new form: its own empty hook bus and no data yet. */
    constructor()
      ensures fresh(bus)
      ensures bus.actions == map[] && bus.filters == map[]
      ensures data == None
    {
      bus := new Bus(None, None);
      data := None;
    }

    /** `submitting(fn)` */
    method Submitting(callback: CallbackId)
      modifies bus
      ensures bus.filters == old(bus.filters)["submitting" := Registered(old(bus.filters), "submitting") + [Hook(DefaultPriority, callback)]]
      ensures bus.actions == old(bus.actions)
    {
      bus.AddFilter("submitting", callback, None);
    }

    /** `validating(fn)` */
    method Validating(callback: CallbackId)
      modifies bus
      ensures bus.filters == old(bus.filters)["validating" := Registered(old(bus.filters), "validating") + [Hook(DefaultPriority, callback)]]
      ensures bus.actions == old(bus.actions)
    {
      bus.AddFilter("validating", callback, None);
    }

    /** `changing(fn)` */
    method Changing(callback: CallbackId)
      modifies bus
      ensures bus.filters == old(bus.filters)["changing" := Registered(old(bus.filters), "changing") + [Hook(DefaultPriority, callback)]]
      ensures bus.actions == old(bus.actions)
    {
      bus.AddFilter("changing", callback, None);
    }

    /** `rendering(fn)` */
    method Rendering(callback: CallbackId)
      modifies bus
      ensures bus.filters == old(bus.filters)["rendering" := Registered(old(bus.filters), "rendering") + [Hook(DefaultPriority, callback)]]
      ensures bus.actions == old(bus.actions)
    {
      bus.AddFilter("rendering", callback, None);
    }

    /** The data part of `render`: the initial data is built once, on the first render. */
    method Render(fields: seq<FieldDef>)
      modifies this
      ensures data == if old(data).None? then Some(InitialData(fields)) else old(data)
    {
      if data.None? {
        var prev: map<string, Value> := map[];
        var i := 0;
        while i < |fields|
          invariant 0 <= i <= |fields|
          invariant prev == FoldFields(fields[..i], map[])
        {
          var current := fields[i];
          assert fields[..i + 1][..i] == fields[..i];
          if current.kind == "section" {
            ghost var start := prev;
            var j := 0;
            while j < |current.children|
              invariant 0 <= j <= |current.children|
              invariant prev == SetAll(current.children[..j], start)
            {
              assert current.children[..j + 1][..j] == current.children[..j];
              prev := SetData(current.children[j], prev);
              j := j + 1;
            }
            assert current.children[..j] == current.children;
          } else {
            prev := SetData(current, prev);
          }
          i := i + 1;
        }
        assert fields[..i] == fields;
        data := Some(prev);
      }
    }

    /**
     * `__change` for any input but a checkbox: the `changing` filters see the
     * old and new value, the field takes the new value, and the answer of the
     * `validating` filters is returned for display. Without data the read of
     * `this.data[name]` throws, which is `None`.
     */
    method Change(name: string, value: Value, interp: (CallbackId, Value, Value) -> Value)
      returns (error: Option<Value>)
      modifies this
      ensures old(data).None? ==> error == None && data == old(data)
      ensures old(data).Some? ==>
        && data == Some(old(data).value[name := value])
        && error == Some(Chain(Order(Registered(bus.filters, "validating")),
                               Obj(map["name" := Str(name), "value" := value]), Undefined, interp))
    {
      if data.None? {
        return None;
      }
      var oldValue := Prop(Obj(data.value), name);
      var change := Obj(map["name" := Str(name), "oldValue" := oldValue, "newValue" := value]);
      var ignored := bus.ApplyFilters("changing", change, Obj(data.value), interp);
      data := Some(data.value[name := value]);
      var answer := bus.ApplyFilters("validating", Obj(map["name" := Str(name), "value" := value]), Undefined, interp);
      error := Some(answer);
    }

    /**
     * `__change` for a checkbox group: the checked values, joined with ", ",
     * become the field's value, and the `validating` filters receive them
     * under `values`.
     */
    method ChangeCheckbox(name: string, checked: seq<string>, interp: (CallbackId, Value, Value) -> Value)
      returns (error: Option<Value>)
      modifies this
      ensures old(data).None? ==> error == None && data == old(data)
      ensures old(data).Some? ==>
        && data == Some(old(data).value[name := Str(Join(checked, ", "))])
        && error == Some(Chain(Order(Registered(bus.filters, "validating")),
                               Obj(map["name" := Str(name), "values" := Str(Join(checked, ", "))]), Undefined, interp))
    {
      if data.None? {
        return None;
      }
      var oldValue := Prop(Obj(data.value), name);
      var values := Str(Join(checked, ", "));
      var change := Obj(map["name" := Str(name), "oldValue" := oldValue, "newValue" := values]);
      var ignored := bus.ApplyFilters("changing", change, Obj(data.value), interp);
      data := Some(data.value[name := values]);
      var answer := bus.ApplyFilters("validating", Obj(map["name" := Str(name), "values" := values]), Undefined, interp);
      error := Some(answer);
    }

    /**
     * `__submit`: `errors` is removed from the form data, the `submitting`
     * filters turn the data into a payload, and the gate decides.
     */
    method Submit(interp: (CallbackId, Value, Value) -> Value) returns (outcome: SubmitOutcome)
      modifies this
      ensures old(data).None? ==> outcome == Threw && data == old(data)
      ensures old(data).Some? ==>
        && data == Some(old(data).value - {"errors"})
        && outcome == Gate(Chain(Order(Registered(bus.filters, "submitting")), Obj(data.value), Undefined, interp),
                           data.value)
    {
      if data.None? {
        return Threw;
      }
      data := Some(data.value - {"errors"});
      var payload := bus.ApplyFilters("submitting", Obj(data.value), Undefined, interp);
      outcome := Gate(payload, data.value);
    }
  }

  // ---------------------------------------------------------------------------
  // A form with the validation mixin attached

  /** A defined payload whose `errors` has a key is blocked. */
  lemma GateBlocksOnKeys(payload: Value, data: map<string, Value>)
    requires payload.Obj? && HasOwnKeys(Prop(payload, "errors"))
    ensures Gate(payload, data) == Blocked(Prop(payload, "errors"))
  {
  }

  /** Form data without `errors` that has validation errors attached is blocked. */
  lemma GateBlocksAttachedErrors(data: map<string, Value>, errors: map<string, seq<string>>)
    requires "errors" !in data && errors != map[]
    ensures Gate(Validation.AttachErrors(Obj(data), errors), data).Blocked?
  {
    Validation.AttachErrorsMerges(data, errors);
    var payload := Validation.AttachErrors(Obj(data), errors);
    var k :| k in errors;
    assert k in Prop(payload, "errors").props;
    GateBlocksOnKeys(payload, data);
  }

  /** Form data without `errors` and without validation errors is submitted unchanged. */
  lemma GatePassesWithoutErrors(data: map<string, Value>)
    requires "errors" !in data
    ensures Gate(Validation.AttachErrors(Obj(data), map[]), data) == Submitted(data)
  {
    assert Validation.AttachErrors(Obj(data), map[]) == Obj(data);
    GatePassesCleanPayload(data, data);
  }

  /** A single filter registered under a tag is the whole chain. */
  lemma SingleFilterChain(id: CallbackId, value: Value, options: Value, interp: (CallbackId, Value, Value) -> Value)
    ensures Chain(Order([Hook(DefaultPriority, id)]), value, options, interp) == interp(id, value, options)
  {
    var hooks := [Hook(DefaultPriority, id)];
    SamePriorityInRegistrationOrder(hooks, DefaultPriority);
    ChainSnoc([], Hook(DefaultPriority, id), value, options, interp);
    assert [] + hooks == hooks;
  }

  /**
   * A fresh form whose only `submitting` filter is the validation mixin's:
   * with a rule table, the first submission is blocked exactly when the
   * initial data has a validation error, and otherwise emits that data; with
   * no rule table the filter answers `undefined` and the gate throws.
   */
  method SubmitWithValidation(m: Validation.Mixin, fields: seq<FieldDef>, matches: string -> bool, id: CallbackId)
    returns (outcome: SubmitOutcome)
    ensures var data := InitialData(fields) - {"errors"};
      var errors := Validation.Errors(m, Obj(data), Some(m.validations), matches);
      && (Validation.NoValidations(m) ==> outcome == Threw)
      && (!Validation.NoValidations(m) ==> (outcome.Blocked? <==> errors != map[]))
      && (!Validation.NoValidations(m) && errors == map[] ==> outcome == Submitted(data))
  {
    var form := new MicroForm();
    form.Submitting(id);
    form.Render(fields);
    var interp := (cb: CallbackId, v: Value, o: Value) => Validation.SubmittingFilter(m, v, matches);
    outcome := form.Submit(interp);
    var data := InitialData(fields) - {"errors"};
    SingleFilterChain(id, Obj(data), Undefined, interp);
    var errors := Validation.Errors(m, Obj(data), Some(m.validations), matches);
    if errors != map[] {
      GateBlocksAttachedErrors(data, errors);
    } else {
      GatePassesWithoutErrors(data);
    }
  }

  /**
   * A form whose only `validating` filter is the validation mixin's: a change
   * stores the value and answers the messages of that field's rules.
   */
  method ChangeWithValidation(m: Validation.Mixin, fields: seq<FieldDef>, name: string, value: Value,
                              matches: string -> bool, id: CallbackId)
    returns (error: Option<Value>)
    ensures error == Some(Validation.ValidatingFilter(m, Obj(map["name" := Str(name), "value" := value]), matches))
  {
    var form := new MicroForm();
    form.Validating(id);
    form.Render(fields);
    var interp := (cb: CallbackId, v: Value, o: Value) => Validation.ValidatingFilter(m, v, matches);
    error := form.Change(name, value, interp);
    SingleFilterChain(id, Obj(map["name" := Str(name), "value" := value]), Undefined, interp);
  }
}
