/**
 * A form definition as the toolkit reads it once parsed: its `fields` array.
 * A field of `type` "section" groups the fields in its `children`.
 */
module FormDefinition {
  import opened Wrappers
  import opened JsValues

  datatype FieldDef = FieldDef(
    name: string,
    kind: string,              // the field's `type`
    labelText: Option<string>,  // the field's `label`
    value: Option<Value>,      // present iff the field has an own `value` property
    selected: Option<Value>,   // present iff the field has an own `selected` property
    children: seq<FieldDef>)   // the fields of a section

  /** Index of the first field of `fields` named `name`, or `|fields|` when there is none. */
  function FirstNamedIndex(fields: seq<FieldDef>, name: string): (i: nat)
    ensures i <= |fields|
    ensures forall j :: 0 <= j < i ==> fields[j].name != name
    ensures i < |fields| ==> fields[i].name == name
  {
    if fields == [] || fields[0].name == name then 0
    else 1 + FirstNamedIndex(fields[1..], name)
  }

  /** The first field of `fields` named `name` (`fields.filter(n => n.name === name)[0]`). */
  function FirstNamed(fields: seq<FieldDef>, name: string): Option<FieldDef>
  {
    var i := FirstNamedIndex(fields, name);
    if i < |fields| then Some(fields[i]) else None
  }
}
