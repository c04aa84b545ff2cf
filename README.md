# mf-forms core in Dafny

This project models the logic at the heart of mf-forms, a web-component form
library. It covers four parts of the library:

- **The hook bus** (`bus.js`) is a per-form registry of *actions* and
  *filters* keyed by tag.
  - Every hook has a priority, 10 when none is given.
  - `runAction` calls the hooks of a tag in ascending priority, with
    registration order breaking ties.
  - `applyFilters` folds a value through the filters in that same order.
  - Removal splices entries out while a `forEach` walks the same array.
- **The validation mixin** (`mixins/validate.js`).
  - It compiles rule strings such as `"required|min:5"` into rule lists.
  - It checks each known rule with its validator.
  - It reports one message per failing rule, taken from the message table or
    else `"Invalid."`.
  - Its `submitting` and `validating` filter bodies turn the result into a
    payload or a message string.
- **The value predicates** (`rules/index.js`): `isEmpty`, `isNumber`,
  `isInteger`, `isEmail` and the rest, over a datatype of JavaScript values.
- **The form's data lifecycle** (`micro-forms.js`), covering:
  - the initial-data fold over the form definition;
  - the non-checkbox and checkbox `__change` updates;
  - the `__submit` gate, which strips `errors`, runs the `submitting` filters,
    and blocks when the payload's `errors` has a key.

The project is split into these modules:

| module | file | models |
|---|---|---|
| `Wrappers` | wrappers.dfy | `Option` |
| `JsValues` | js_values.dfy | JavaScript values, truthiness, property reads, `split`/`join`/`trim`, and `Number(string)` |
| `Rules` | rules.dfy | `rules/index.js` |
| `FormDefinition` | definition.dfy | the parsed form definition (fields with name, type, label, value, selected, children) |
| `HookBus` | bus.dfy | `bus.js`, as the class `Bus` holding two `map<string, seq<Hook>>` registries |
| `Validation` | validate.dfy | `mixins/validate.js` |
| `MicroForms` | micro_forms.dfy | the `micro-forms.js` slice, as the class `MicroForm` holding its bus and its data |

**How behaviour outside the model is represented:**
- A callback is known only by its identity (`CallbackId`).
- What a filter does is a function parameter `interp(id, value, options)`.
- What an action does is recorded as the trace of calls it receives.
- The e-mail regular expression is a parameter `matches: string -> bool`.

**Behaviour of the code worth knowing:**
- **Removal.** `removeAction`/`removeFilter` splice inside `forEach`, so a
  matching entry directly after a removed one survives (bus.js:25-29,
  `HookBus.SpliceRemoveSkipsSecondOfPair`). Removal on an unknown tag creates an
  empty list (bus.js:24, 32).
- **`isNumber`** accepts `Infinity` (rules/index.js:4).
- **Message lookup** is `messages[rule]`, else `"Invalid."`
  (mixins/validate.js:104-108).

## Model

| member | source | states |
|---|---|---|
| HookBus.Bus.AddAction | bus.js:9-15 | appends exactly one `Hook(priority or 10, callback)` to the end of the tag's action list; other tags and the filter table are unchanged |
| HookBus.Bus.AddFilter | bus.js:16-22 | the same for the filter table, leaving the action table unchanged |
| HookBus.Bus.RemoveAction | bus.js:23-30 | the tag's action list becomes its splice-during-forEach removal (an unknown tag gets an empty list); the filter table is unchanged |
| HookBus.Bus.RemoveFilter | bus.js:31-38 | the same for the filter table, leaving the action table unchanged |
| HookBus.SpliceDuringForEach | bus.js:25-29 | the `forEach` with an in-loop `splice` computes exactly `SpliceRemove`, which is what the removal lemmas characterise |
| HookBus.SpliceRemoveKeepsOthers | bus.js:23-30 | removal keeps every entry whose callback differs, in the original relative order |
| HookBus.SpliceRemoveSeparated | bus.js:25-29 | when no two matching entries are adjacent, removal drops every matching entry |
| HookBus.SpliceRemoveSkipsSecondOfPair | bus.js:25-29 | of two adjacent matching entries, the first is removed and the second is skipped and survives |
| HookBus.RemoveAfterAddRestores | bus.js:16-38 | on a new bus, after `addFilter(tag, cb, 1)` and `removeFilter(tag, cb)`, `applyFilters(tag, v)` returns `v` |
| HookBus.SpliceRemoveAfterAdd | bus.js:16-38 | removing a callback just appended to a list that did not carry it gives back that list |
| HookBus.SpliceRemoveAfterAddTwice | bus.js:16-38 | after appending the same callback twice, one removal leaves the second registration in place |
| HookBus.SpliceRemoveTwiceExample | bus.js:16-38 | `addFilter(tag, cb, 10)`, `addFilter(tag, cb, 1)`, `removeFilter(tag, cb)` keeps the priority 1 hook |
| HookBus.AddRemoveFilterRoundTrip | bus.js:16-69 | on any bus whose tag does not carry `cb`, `addFilter` then `removeFilter` leaves the tag's list (now present) and `applyFilters`' result unchanged, and the actions untouched |
| HookBus.Bucketize | bus.js:42-45 | bucket `p` exists iff some hook has priority `p`, and holds those hooks' callbacks in registration order; its length is one more than the highest priority that is an array index (below 2^32 - 1), 0 if none is |
| HookBus.RunBucket | bus.js:47-49 | one bucket's `forEach` extends the call trace by each of its callbacks, in order, each with `options` |
| HookBus.FilterBucket | bus.js:63-65 | one bucket's `forEach` folds the running value through its callbacks, in order |
| HookBus.Bus.RunAction | bus.js:39-52 | the calls made are exactly one per registered hook whose priority is an array index (below 2^32 - 1), in `Order` (ascending priority, then registration), each with the same `options`; the registries are not modified |
| HookBus.Bus.ApplyFilters | bus.js:53-69 | the result is the left fold of `value` through the hooks in `Order`, each receiving the same `options`; the registries are not modified |
| HookBus.OrderSorted | bus.js:46-50 | the dispatch order is sorted by ascending priority |
| HookBus.OrderIsPermutation | bus.js:42-50 | the dispatch order is a permutation of the registrations whose priority is an array index: each of those runs exactly once and no other hook runs |
| HookBus.OrderIsPermutationOfAll | bus.js:42-50 | when every priority is an array index, every registered hook runs exactly once |
| HookBus.NonIndexPriorityNeverRuns | bus.js:42-50 | a hook with priority 2^32 - 1 or more is stored as a plain property and never runs |
| HookBus.OrderKeepsRegistrationOrder | bus.js:42-50 | within any one index priority, hooks run in registration order; at a non-index priority none runs |
| HookBus.SamePriorityInRegistrationOrder | bus.js:42-50 | hooks that share a priority run exactly in registration order, or not at all when the priority is not an array index |
| HookBus.OrderExample | bus.js:39-51 | A at 5, B at 1 and C at 5 run as B, A, C |
| HookBus.ApplyFiltersUnregistered | bus.js:53-68 | on a tag with no list or an empty list, `applyFilters` returns `value` unchanged |
| HookBus.TwoFiltersCompose | bus.js:57-66 | F1 then F2 at one index priority yields `F2(F1(v))`, both with the same options; at a non-index priority the value comes back unchanged |
| HookBus.ChainAppend | bus.js:62-66 | folding through `a + b` is folding through `a`, then through `b` |
| Validation.ParseItemShape | mixins/validate.js:9-15 | an item gets an argument iff it contains `:`; name and argument are colon-free; re-serialising the parsed rule gives a prefix of the item that ends at the item's end or just before a `:`, so the argument is the whole second segment and later segments are dropped |
| Validation.ParseItemSegments | mixins/validate.js:9-15 | `a:b:c` with colon-free `a` and `b` parses to rule `a` with argument `b` |
| Validation.UnparseRoundTrip | mixins/validate.js:9-15 | parsing `name` or `name:arg`, written from a rule whose parts contain neither separator, gives that rule back |
| Validation.CompiledRoundTrip | mixins/validate.js:8-16 | compiling such rules joined with the rule separator gives back the same rules, in order |
| Validation.CompiledExample | mixins/validate.js:8-16 | the string of `required` and `min:5` joined by the rule separator compiles to `required` (no argument) and `min` with argument `"5"` |
| Validation.CompileRuleString | mixins/validate.js:8-16 | the `split`/`forEach`/`push` loop builds exactly the compiled rule list |
| Validation.ExplodeRules | mixins/validate.js:3-20 | one entry per key of the rule table; a string compiles, any other value gives an empty rule list |
| Validation.MinMaxBounds | mixins/validate.js:24-25 | `min:n`/`max:n` accept a number iff it is `>= n` / `<= n`; without an argument, or on a non-number, they refuse |
| Validation.MinMaxAnyBound | mixins/validate.js:24-25 | with any argument that reads as a number `r`, `min`/`max` accept a number iff it is `>= r` / `<= r`; an argument that reads as NaN, or a value that is not a number, is refused; against a numeric argument `Infinity` passes `min` and fails `max`, `-Infinity` the reverse |
| Validation.MinMaxDecimalBounds | mixins/validate.js:24-25 | `min:-2.5`, `max:+10` and any other signed decimal argument bound the value by the number the argument denotes |
| Validation.MinFiveRefusesThree | mixins/validate.js:24 | `min:5` compiles to one rule, which fails on 3 |
| Validation.RequiredRefusesUndefined | mixins/validate.js:23 | `required` fails on `undefined` |
| Validation.DefaultMessages | mixins/validate.js:37-45 | the default message table has exactly the seven validator names as keys |
| Validation.DisplayNameFirstMatch | mixins/validate.js:89-95 | the first definition field carrying the name decides the caption: its label when that is non-empty, otherwise the field name |
| Validation.DisplayNameUnmatched | mixins/validate.js:89-95 | with no definition, or no field of that name, the caption is the field name |
| Validation.DefaultMessageUsed | mixins/validate.js:104-108 | with the default table, a known rule's message is its default text |
| Validation.FieldMessagesAppend | mixins/validate.js:98-111 | every rule is evaluated: the messages of `a + b` are those of `a` followed by those of `b` |
| Validation.FieldMessagesEmptyIff | mixins/validate.js:98-111 | a field has no message iff none of its rules fails |
| Validation.FieldMessagesAtMostOnePerRule | mixins/validate.js:98-111 | a field gets at most one message per rule |
| Validation.SingleRuleMessages | mixins/validate.js:100-109 | a one-rule list yields that rule's message if it fails, and nothing otherwise |
| Validation.UnknownRuleIgnored | mixins/validate.js:100 | a rule name the validators table lacks never contributes a message, wherever it sits in the list |
| Validation.ErrorsCharacterized | mixins/validate.js:97-114 | a field is a key of the result iff it is in the rule table and some rule of its entry fails on its value; its list is that field's messages |
| Validation.ErrorsWithinTable | mixins/validate.js:97-114 | only fields of the rule table are reported |
| Validation.ErrorsOneField | mixins/validate.js:97-114 | a one-field table gives `{}` when the field has no message, else just that field with its messages |
| Validation.RecordRule | mixins/validate.js:100-109 | one rule's step appends its message to the field's entry, creating it on the first failure; no other field changes |
| Validation.CheckField | mixins/validate.js:98-111 | the inner `forEach` leaves every other field alone and reports the field iff it has messages, with them in rule order |
| Validation.CollectErrors | mixins/validate.js:97-114 | the outer `reduce` reports exactly the fields of the exploded table whose rules yield messages, each with its messages |
| Validation.ErrorsFromExploded | mixins/validate.js:87-114 | a map built that way from the exploded table is `validate`'s result for the original table |
| Validation.Validate | mixins/validate.js:78-117 | returns `Errors(...)`: `{}` for a falsy rule table, and missing data read as `{}` |
| Validation.ErrorsExampleLabel | mixins/validate.js:89-95 | with a definition labelling `age` as "Age", `min:5` on `{age: 3}` gives `["Age must be greater than 5."]`; with an empty label it gives `["age must be greater than 5."]` |
| Validation.LabelledMinError | mixins/validate.js:89-95 | `min:5` on `{age: 3}` is reported under the field's non-empty label, or under `age` when the label is empty |
| Validation.ErrorsExampleInvalid | mixins/validate.js:104-108 | with a message table that has no `min` entry, `min:5` on `{age: 3}` gives `["Invalid."]` |
| Validation.ErrorsExampleMin | mixins/validate.js:37-45 | `min:5` on `{age: 3}` gives `{age: ["age must be greater than 5."]}` |
| Validation.ErrorsExampleRequired | mixins/validate.js:78-117 | `required` on an empty string gives `"name is required."`; an empty table on `null` data gives `{}` |
| Validation.ErrorsObject | mixins/validate.js:59 | the errors object that gets attached has exactly the reported fields as keys |
| Validation.AttachErrorsKeepsValues | mixins/validate.js:57-61 | no errors leaves the values as they were; otherwise only `errors` is added or replaced |
| Validation.AttachErrorsMerges | mixins/validate.js:59 | the new `errors` is the earlier one merged with the new messages, and the new messages win |
| Validation.ValidatingFilterAnswer | mixins/validate.js:63-75 | `undefined` without validations; `""` for a field with no rule; otherwise its messages joined with a space (`""` when none) |
| Validation.CheckboxGroupAlwaysMissing | mixins/validate.js:63-75 | a checkbox change (`{name, values}`) under `required` always answers the required message, because `value` reads as `undefined` |
| Rules.IsEmptyByKind | rules/index.js:12-37 | `isEmpty` kind by kind: true for undefined/null; false for functions, dates, numbers, booleans; whitespace-only strings; zero-length arrays; objects without keys |
| Rules.IsEmptyExamples | rules/index.js:12-37 | `"   "`, `[]` and `{}` are empty; `0`, `false`, a date, `{a:1}` and `" a "` are not |
| Rules.NumberClassification | rules/index.js:4-5 | NaN is not a number; an integer is a number; `Infinity` is a number but not an integer |
| Rules.IsEmailOnlyStrings | rules/index.js:41-52 | `isEmail` holds iff the value is a string the e-mail pattern accepts |
| FormDefinition.FirstNamedIndex | mixins/validate.js:91 | the index of the first field with the given name, or the length when there is none |
| JsValues.SplitPieces | mixins/validate.js:8-11 | no piece of a split contains the separator; there are at least two pieces iff the separator occurs |
| JsValues.JoinSplit | mixins/validate.js:8 | joining the pieces of a split with the separator gives back the string |
| JsValues.SplitJoin | mixins/validate.js:8 | splitting a join of separator-free pieces gives back the pieces |
| JsValues.ToNumberNatToString | mixins/validate.js:24-25 | the decimal rendering of a natural number reads as that number |
| JsValues.ToNumberDecimal | mixins/validate.js:24-25 | `Number` reads an optional sign, digits and an optional point with more digits (at least one digit in all) as the signed value of the digits; a point with no digit around it reads as NaN |
| MicroForms.MicroForm.Submitting | micro-forms.js:72-74 | registers a `submitting` filter at the default priority |
| MicroForms.MicroForm.Validating | micro-forms.js:75-77 | registers a `validating` filter at the default priority |
| MicroForms.MicroForm.Changing | micro-forms.js:78-80 | registers a `changing` filter at the default priority |
| MicroForms.MicroForm.Rendering | micro-forms.js:81-83 | registers a `rendering` filter at the default priority |
| MicroForms.MicroForm.Render | micro-forms.js:86-106 | data is built by the initial fold only when unset; later renders keep it |
| MicroForms.FoldFieldsFlatten | micro-forms.js:95-105 | the fold over fields equals setting the flattened fields (sections replaced by their children) in order |
| MicroForms.FlattenMembers | micro-forms.js:96-102 | a field holds data iff it is a non-section field of the definition or a child of a section |
| MicroForms.SetAllAppend | micro-forms.js:95-105 | setting `a + b` is setting `a`, then `b` |
| MicroForms.SetAllUntouched | micro-forms.js:87-94 | fields without a start value under `k` leave `k` as it was |
| MicroForms.SetAllLastWriter | micro-forms.js:87-94 | the last field with a start value under `k` decides `k`, with `selected` overriding `value` |
| MicroForms.InitialDataEntries | micro-forms.js:86-106 | a key is present iff some flattened field of that name has `value` or `selected`; the last such field's start value wins |
| MicroForms.LastStart | micro-forms.js:95-105 | locates the last flattened field with a start value under a name |
| MicroForms.MicroForm.Change | micro-forms.js:181-187 | with data, `data[name]` becomes the value, and the error is the `validating` chain on `{name, value}`; without data it throws (None) |
| MicroForms.MicroForm.ChangeCheckbox | micro-forms.js:165-180 | `data[name]` becomes the checked values joined with ", ", and the `validating` chain receives `{name, values}` |
| MicroForms.MicroForm.Submit | micro-forms.js:215-231 | `errors` is deleted from the data; the outcome is the gate applied to the `submitting` chain's payload |
| MicroForms.GateDecision | micro-forms.js:224-231 | an undefined/null payload throws; a defined one is blocked iff its `errors` has a key; emitted data never carries `errors` |
| MicroForms.GatePassesCleanPayload | micro-forms.js:228-231 | an object payload without `errors` is emitted as a copy of itself |
| MicroForms.GateBlocksOnKeys | micro-forms.js:224-227 | a payload whose `errors` has a key is blocked with those errors |
| MicroForms.GateBlocksAttachedErrors | micro-forms.js:222-227 | data with validation errors attached by the submitting filter is blocked |
| MicroForms.GatePassesWithoutErrors | micro-forms.js:228-231 | data that passes validation is emitted unchanged |
| MicroForms.SingleFilterChain | micro-forms.js:72-74 | a lone filter registered at the default priority is the whole chain |
| MicroForms.SubmitWithValidation | micro-forms.js:215-231 | with only the validation mixin's submitting filter, a form without validations throws; otherwise a submission is blocked iff `validate` reports an error, and with no errors it emits the initial data |
| MicroForms.ChangeWithValidation | micro-forms.js:181-186 | with only the validation mixin's validating filter, a change answers that filter's message for the field |

## Left out

- Markup and DOM work are not modelled: templates, `__renderField`, `__setErrors`, `__emitEvent`, event naming and `connectedCallback`. The error value that `__change` hands to `__setErrors` is returned instead, and the submit outcome says what would be emitted.
- The checkbox query `document.querySelectorAll(...)` reads presentation state. The checked values are a parameter of `MicroForm.ChangeCheckbox`.
- `JSON.parse` of the definition is not modelled; a parsed field sequence is an input. A section without `children`, and names or labels that are not strings, are outside the model.
- The `window.addEventListener("mf-connected", …)` wiring is not modelled. Only the filter bodies are, as `Validation.SubmittingFilter` and `Validation.ValidatingFilter`.
- `mixins/i18n.js`, `mixins/remote-definition.js` (a network fetch), `mixins/composable.js`, `inputs.js` and the example configurations are not part of this model.
- `isPromise` (rules/index.js:10) is not used by the core and is not modelled.
- The `EMAIL_PATTERN` regular expression is the parameter `matches`.
- HookBus.Bus.AddAction: priorities are natural numbers. A negative or fractional priority becomes a non-index property of the bucket array, which `forEach` skips; that case is not modelled. Priorities of 2^32 - 1 and above, which behave the same way, are modelled.
- HookBus.Bus.ApplyFilters: callbacks are pure functions of their arguments. Exceptions they throw are not modelled. Neither are mutations they make to shared objects, such as a `changing` filter that edits `this.data`, or aliasing between the payload and the form data.
- JsValues.ToNumber reads decimal numerals with an optional sign and fraction. Exponents, `0x`/`0b`/`0o` literals and `Infinity` read as NaN here, although JavaScript accepts them. Numbers are exact reals: rounding to the nearest double is not modelled, so `min:9007199254740993` refuses 9007199254740992 and `min:0.30000000000000001` refuses 0.3 here, while JavaScript accepts both.
- Rule names inherited from `Object.prototype` (such as `constructor`) are treated as unknown rules; in JavaScript they would index the validators object.
- Validation.Errors, Validation.Validate: when a field that fails a rule is named like an `Object.prototype` member (`toString`, `constructor`, `__proto__`), the source throws a TypeError (mixins/validate.js:103-105): `prev[current] || []` finds the inherited function or object, which has no `push`. The model reports the field's messages as for any other name, e.g. `{toString: ["toString must be greater than 5."]}` for `min:5` on `{toString: 3}`, and so do the validating and submitting filters built on them.
- JsValues.Prop reads own properties only. In JavaScript a field named like an `Object.prototype` member (`toString`, `constructor`) that the data lacks yields that inherited function, so `required` passes where the model reports the field as required.
- HookBus.Bus.AddAction, HookBus.Bus.AddFilter, HookBus.Bus.RemoveAction and HookBus.Bus.RemoveFilter: a tag named like an `Object.prototype` member (such as `constructor` or `toString`) makes the source throw a TypeError, because the table lookup finds the inherited function instead of a hook list (bus.js:13-14 and 20-21 for the `push`, bus.js:25 and 33 for the removal `forEach`); running such a tag throws too when the function's `length` is positive (`constructor`). The model treats such a tag like any other.
- Validation.AttachErrors: a payload that is not an object is returned unchanged. In strict-mode code `values.errors = …` throws a TypeError when the payload is undefined, null or another primitive, and sets an `errors` property on an array, function or date; neither is modelled. `Object.assign` over a string or array `errors` value is not modelled either: such an earlier `errors` value contributes no keys.
- MicroForms.Gate: a truthy payload that is not an object (a string, an array) is emitted as an empty copy. `Object.assign` would copy its indices.
