/**
 * The validation mixin of mixins/validate.js: rule strings such as
 * "required|min:5" are compiled into rule lists, each rule is checked by its
 * validator, and every failing rule contributes one message to its field.
 * The mixin plugs into a form through two filters, `submitting` and
 * `validating`, which are modelled here as functions on values.
 */
module Validation {
  import opened Wrappers
  import opened JsValues
  import opened FormDefinition
  import Rules

  // ---------------------------------------------------------------------------
  // Compiling rule strings

  /** One compiled rule, `{rule, arg}`; `arg` is absent for an item without a colon. */
  datatype Rule = Rule(name: string, arg: Option<string>)

  /** One `|`-separated item: a colon splits it into rule and argument (`opts[0]`, `opts[1]`). */
  function ParseItem(item: string): Rule {
    if ':' in item then
      var opts := Split(item, ':');
      Rule(opts[0], Some(opts[1]))
    else
      Rule(item, None)
  }

  /** The item a rule is written as. */
  function Unparse(r: Rule): string {
    match r.arg
    case None => r.name
    case Some(a) => r.name + ":" + a
  }

  /** A rule that can be written in a rule string: no separator inside its name or argument. */
  predicate Writable(r: Rule) {
    ':' !in r.name && '|' !in r.name
    && (r.arg.Some? ==> ':' !in r.arg.value && '|' !in r.arg.value)
  }

  function ParseItems(items: seq<string>): (rs: seq<Rule>)
    ensures |rs| == |items|
    ensures forall k :: 0 <= k < |items| ==> rs[k] == ParseItem(items[k])
  {
    seq(|items|, k requires 0 <= k < |items| => ParseItem(items[k]))
  }

  /** The rule list of a rule string: one rule per `|`-separated item, in the order written. */
  function Compiled(s: string): seq<Rule> {
    ParseItems(Split(s, '|'))
  }

  /** The rule list of a table entry: a string is compiled, any other value has no rules. */
  function RulesOf(rule: Value): seq<Rule> {
    if rule.Str? then Compiled(rule.s) else []
  }

  /** The pieces of `s` up to its first separator (`split(sep)[0]`) start `s`. */
  lemma {:induction false} JoinHeadPrefix(parts: seq<string>, sep: string)
    requires |parts| >= 1
    ensures parts[0] <= Join(parts, sep)
  {
    if |parts| > 1 {
      var j := Join(parts, sep);
      assert j == parts[0] + (sep + Join(parts[1..], sep));
      assert j[..|parts[0]|] == parts[0];
    }
  }

  /** A join of two or more pieces has the separator right after the first piece. */
  lemma JoinHeadBoundary(parts: seq<string>)
    requires |parts| >= 1
    ensures |parts| == 1 ==> Join(parts, ":") == parts[0]
    ensures |parts| >= 2 ==> |Join(parts, ":")| > |parts[0]| && Join(parts, ":")[|parts[0]|] == ':'
  {
    if |parts| >= 2 {
      var j := Join(parts, ":");
      assert j == parts[0] + (":" + Join(parts[1..], ":"));
    }
  }

  /**
   * What an item compiles to: the argument is present exactly when the item
   * has a colon, neither part has one, and the item starts with the rule as
   * written and continues, if at all, with a colon. So the name is the text
   * before the first colon, the argument the text up to the second, and
   * anything after a second colon is dropped.
   */
  lemma ParseItemShape(item: string)
    ensures ParseItem(item).arg.Some? <==> ':' in item
    ensures ':' !in ParseItem(item).name
    ensures ParseItem(item).arg.Some? ==> ':' !in ParseItem(item).arg.value
    ensures Unparse(ParseItem(item)) <= item
    ensures var k := |Unparse(ParseItem(item))|; k == |item| || (k < |item| && item[k] == ':')
  {
    SplitPieces(item, ':');
    if ':' in item {
      var opts := Split(item, ':');
      JoinSplit(item, ':');
      assert item == opts[0] + ":" + Join(opts[1..], ":");
      JoinHeadPrefix(opts[1..], ":");
      var u := opts[0] + ":";
      assert item == u + Join(opts[1..], ":");
      assert Unparse(ParseItem(item)) == u + opts[1];
      assert item[..|u| + |opts[1]|] == u + opts[1];
      JoinHeadBoundary(opts[1..]);
    }
  }

  /** `"a:b:c"` compiles to rule `a` with argument `b`: the third segment is dropped. */
  lemma ParseItemSegments(a: string, b: string, c: string)
    requires ':' !in a && ':' !in b
    ensures ParseItem(a + ":" + b + ":" + c) == Rule(a, Some(b))
  {
    var item := a + ":" + b + ":" + c;
    var rest := b + ":" + c;
    assert item == a + ":" + rest;
    assert item[..|a|] == a && item[|a|] == ':';
    IndexOfFirst(item, ':', |a|);
    assert item[|a| + 1..] == rest;
    assert rest[..|b|] == b && rest[|b|] == ':';
    IndexOfFirst(rest, ':', |b|);
    assert Split(item, ':')[1] == Split(rest, ':')[0];
  }

  /** Writing a rule and compiling the item gives the rule back. */
  lemma UnparseRoundTrip(r: Rule)
    requires Writable(r)
    ensures ParseItem(Unparse(r)) == r
  {
    if r.arg.Some? {
      var parts := [r.name, r.arg.value];
      assert Join(parts, ":") == Unparse(r);
      SplitJoin(parts, ':');
    }
  }

  /** Writing a non-empty rule list as a rule string and compiling it gives the list back. */
  lemma CompiledRoundTrip(rs: seq<Rule>)
    requires |rs| >= 1
    requires forall k :: 0 <= k < |rs| ==> Writable(rs[k])
    ensures Compiled(Join(seq(|rs|, k requires 0 <= k < |rs| => Unparse(rs[k])), "|")) == rs
  {
    var items := seq(|rs|, k requires 0 <= k < |rs| => Unparse(rs[k]));
    forall k | 0 <= k < |rs|
      ensures '|' !in items[k]
    {
      assert items[k] == Unparse(rs[k]);
    }
    SplitJoin(items, '|');
    forall k | 0 <= k < |rs|
      ensures ParseItem(items[k]) == rs[k]
    {
      UnparseRoundTrip(rs[k]);
    }
  }

  /** A two-rule string. */
  lemma CompiledExample()
    ensures Compiled("required|min:5") == [Rule("required", None), Rule("min", Some("5"))]
  {
    var rs := [Rule("required", None), Rule("min", Some("5"))];
    assert Join(seq(|rs|, k requires 0 <= k < |rs| => Unparse(rs[k])), "|") == "required|min:5";
    CompiledRoundTrip(rs);
  }

  /** `rule.split('|').forEach(item => rules.push(...))` */
  method CompileRuleString(s: string) returns (rules: seq<Rule>)
    ensures rules == Compiled(s)
  {
    var items := Split(s, '|');
    rules := [];
    var i := 0;
    while i < |items|
      invariant 0 <= i <= |items|
      invariant |rules| == i
      invariant forall k :: 0 <= k < i ==> rules[k] == ParseItem(items[k])
    {
      var item := items[i];
      if ':' in item {
        var opts := Split(item, ':');
        rules := rules + [Rule(opts[0], Some(opts[1]))];
      } else {
        rules := rules + [Rule(item, None)];
      }
      i := i + 1;
    }
  }

  /** `explodeRules`: every field of the table gets its compiled rule list. */
  method ExplodeRules(table: map<string, Value>) returns (exploded: map<string, seq<Rule>>)
    ensures exploded.Keys == table.Keys
    ensures forall f :: f in table ==> exploded[f] == RulesOf(table[f])
  {
    exploded := map[];
    var todo := table.Keys;
    while todo != {}
      invariant todo <= table.Keys
      invariant exploded.Keys == table.Keys - todo
      invariant forall f :: f in exploded ==> exploded[f] == RulesOf(table[f])
      decreases todo
    {
      var f :| f in todo;
      var rules: seq<Rule> := [];
      if table[f].Str? {
        rules := CompileRuleString(table[f].s);
      }
      exploded := exploded[f := rules];
      todo := todo - {f};
    }
  }

  // ---------------------------------------------------------------------------
  // Validators and messages

  /** The rule names the `validators` table has. */
  const KnownRules: set<string> := {"required", "min", "max", "number", "integer", "date", "email"}

  /** `Number(arg)` as `>=` and `<=` coerce a rule argument; an absent argument is `undefined`, i.e. NaN. */
  function ArgNumber(arg: Option<string>): (r: Value)
    ensures r.Num? || r.NaN?
  {
    match arg
    case None => NaN
    case Some(a) => ToNumber(a)
  }

  /** `validators[rule](args)` */
  predicate Passes(rule: string, arg: Option<string>, value: Value, matches: string -> bool)
    requires rule in KnownRules
  {
    if rule == "required" then !Rules.IsEmpty(value)
    else if rule == "min" then Rules.IsNumber(value) && NumberGe(value, ArgNumber(arg))
    else if rule == "max" then Rules.IsNumber(value) && NumberGe(ArgNumber(arg), value)
    else if rule == "number" then Rules.IsNumber(value)
    else if rule == "integer" then Rules.IsInteger(value)
    else if rule == "date" then Rules.IsDate(value)
    else Rules.IsEmail(value, matches)
  }

  /** A rule produces a message when the validators table has it and its validator refuses the value. */
  predicate Fails(rule: Rule, value: Value, matches: string -> bool) {
    rule.name in KnownRules && !Passes(rule.name, rule.arg, value, matches)
  }

  /**
   * `min` and `max` compare a number with the numeric reading of their
   * argument; without an argument (an item with no colon) they refuse every
   * value, and they refuse every value that is not a number.
   */
  lemma MinMaxBounds(x: real, n: nat, v: Value, matches: string -> bool)
    ensures Passes("min", Some(NatToString(n)), Num(x), matches) <==> x >= n as real
    ensures Passes("max", Some(NatToString(n)), Num(x), matches) <==> x <= n as real
    ensures !Passes("min", None, v, matches) && !Passes("max", None, v, matches)
    ensures !Rules.IsNumber(v) ==> !Passes("min", Some(NatToString(n)), v, matches)
                                   && !Passes("max", Some(NatToString(n)), v, matches)
  {
    ToNumberNatToString(n);
  }

  /**
   * `min` and `max` against any argument: a numeric reading bounds the value
   * from below or above, a NaN reading (an unparsable argument) refuses
   * every value, and a value that is not a number is refused whatever the
   * argument.
   */
  lemma MinMaxAnyBound(x: real, bound: string, v: Value, matches: string -> bool)
    ensures ToNumber(bound).Num? ==>
              (Passes("min", Some(bound), Num(x), matches) <==> x >= ToNumber(bound).n)
              && (Passes("max", Some(bound), Num(x), matches) <==> x <= ToNumber(bound).n)
    ensures ToNumber(bound).NaN? ==> !Passes("min", Some(bound), v, matches) && !Passes("max", Some(bound), v, matches)
    ensures !Rules.IsNumber(v) ==> !Passes("min", Some(bound), v, matches) && !Passes("max", Some(bound), v, matches)
    ensures ToNumber(bound).Num? ==>
              Passes("min", Some(bound), Infinity(false), matches) && !Passes("max", Some(bound), Infinity(false), matches)
    ensures ToNumber(bound).Num? ==>
              !Passes("min", Some(bound), Infinity(true), matches) && Passes("max", Some(bound), Infinity(true), matches)
  {
  }

  /** `min:-2.5`, `max:+10` and the like: a signed decimal argument bounds the value by the number it denotes. */
  lemma MinMaxDecimalBounds(x: real, sign: string, whole: string, frac: string, matches: string -> bool)
    requires IsSign(sign) && AllDigits(whole) && AllDigits(frac) && |whole| + |frac| > 0
    ensures Passes("min", Some(sign + whole + "." + frac), Num(x), matches) <==> x >= Signed(sign, Magnitude(whole, frac))
    ensures Passes("max", Some(sign + whole + "." + frac), Num(x), matches) <==> x <= Signed(sign, Magnitude(whole, frac))
    ensures whole != "" ==> (Passes("min", Some(sign + whole), Num(x), matches) <==> x >= Signed(sign, Magnitude(whole, "")))
    ensures whole != "" ==> (Passes("max", Some(sign + whole), Num(x), matches) <==> x <= Signed(sign, Magnitude(whole, "")))
  {
    ToNumberDecimal(sign, whole, frac);
    MinMaxAnyBound(x, sign + whole + "." + frac, Num(x), matches);
    if whole != "" {
      MinMaxAnyBound(x, sign + whole, Num(x), matches);
    }
  }

  /** The argument object a validator and its message receive: `{value, name, [rule]: arg}`. */
  datatype MessageArgs = MessageArgs(value: Value, name: string, rule: string, arg: Option<string>)

  type MessageTable = map<string, MessageArgs -> string>

  /** `${arg}`: the argument's text, or "undefined" when the item had no colon. */
  function ArgText(arg: Option<string>): string {
    match arg
    case None => "undefined"
    case Some(a) => a
  }

  /** The default message of a known rule. */
  function DefaultMessage(rule: string, a: MessageArgs): string {
    if rule == "required" then a.name + " is required."
    else if rule == "min" then a.name + " must be greater than " + ArgText(a.arg) + "."
    else if rule == "max" then a.name + " must be less than " + ArgText(a.arg) + "."
    else if rule == "number" then a.name + " must be a valid number."
    else if rule == "date" then a.name + " must be a valid date."
    else if rule == "integer" then a.name + " must be a valid integer."
    else a.name + " must be a valid email."
  }

  /** The messages a new mixin starts with: one for every known rule. */
  function DefaultMessages(): (t: MessageTable)
    ensures t.Keys == KnownRules
  {
    map rule | rule in KnownRules :: (a: MessageArgs) => DefaultMessage(rule, a)
  }

  /** With the default table, a failed known rule gets its default message. */
  lemma DefaultMessageUsed(a: MessageArgs)
    requires a.rule in KnownRules
    ensures Message(DefaultMessages(), a) == DefaultMessage(a.rule, a)
  {
  }

  /** The message of a failed rule: the table's message, or "Invalid." when it has none. */
  function Message(messages: MessageTable, args: MessageArgs): string {
    if args.rule in messages then messages[args.rule](args) else "Invalid."
  }

  /** `getName`: a field's non-empty caption in the definition, else the field name itself. */
  function DisplayName(definition: Option<seq<FieldDef>>, name: string): string {
    match definition
    case None => name
    case Some(fields) =>
      match FirstNamed(fields, name)
      case None => name
      case Some(field) =>
        if field.labelText.Some? && field.labelText.value != "" then field.labelText.value else name
  }

  /** The first field carrying the name decides: its non-empty label, or else the name. */
  lemma DisplayNameFirstMatch(fields: seq<FieldDef>, name: string, i: nat)
    requires i < |fields| && fields[i].name == name
    requires forall j :: 0 <= j < i ==> fields[j].name != name
    ensures fields[i].labelText.Some? && fields[i].labelText.value != "" ==>
              DisplayName(Some(fields), name) == fields[i].labelText.value
    ensures fields[i].labelText.None? || fields[i].labelText.value == "" ==>
              DisplayName(Some(fields), name) == name
  {
    assert FirstNamedIndex(fields, name) == i;
  }

  /** Without a definition, or without a field of that name, the name itself is shown. */
  lemma DisplayNameUnmatched(definition: Option<seq<FieldDef>>, name: string)
    requires definition.Some? ==> forall j :: 0 <= j < |definition.value| ==> definition.value[j].name != name
    ensures DisplayName(definition, name) == name
  {
    if definition.Some? {
      assert FirstNamedIndex(definition.value, name) == |definition.value|;
    }
  }

  /** What one rule contributes to its field's message list. */
  function RuleMessages(rule: Rule, value: Value, caption: string, messages: MessageTable,
                        matches: string -> bool): seq<string>
  {
    if Fails(rule, value, matches) then
      [Message(messages, MessageArgs(value, caption, rule.name, rule.arg))]
    else []
  }

  /** The messages of a field, rule by rule in the order of its rule list. */
  function FieldMessages(rules: seq<Rule>, value: Value, caption: string, messages: MessageTable,
                         matches: string -> bool): seq<string>
  {
    if rules == [] then []
    else FieldMessages(rules[..|rules| - 1], value, caption, messages, matches)
         + RuleMessages(rules[|rules| - 1], value, caption, messages, matches)
  }

  /** The messages of the first `j + 1` rules extend those of the first `j`. */
  lemma FieldMessagesPrefix(rules: seq<Rule>, j: nat, value: Value, caption: string,
                            messages: MessageTable, matches: string -> bool)
    requires j < |rules|
    ensures FieldMessages(rules[..j + 1], value, caption, messages, matches)
         == FieldMessages(rules[..j], value, caption, messages, matches)
            + RuleMessages(rules[j], value, caption, messages, matches)
  {
    assert rules[..j + 1][..j] == rules[..j];
  }

  /** Every rule is checked: the messages of a list are those of its parts, in order. */
  lemma {:induction false} FieldMessagesAppend(a: seq<Rule>, b: seq<Rule>, value: Value, caption: string,
                                               messages: MessageTable, matches: string -> bool)
    ensures FieldMessages(a + b, value, caption, messages, matches)
         == FieldMessages(a, value, caption, messages, matches) + FieldMessages(b, value, caption, messages, matches)
    decreases |b|
  {
    if b == [] {
      assert a + b == a;
    } else {
      var b' := b[..|b| - 1];
      FieldMessagesAppend(a, b', value, caption, messages, matches);
      assert (a + b)[..|a + b| - 1] == a + b';
      assert (a + b)[|a + b| - 1] == b[|b| - 1];
      var last := RuleMessages(b[|b| - 1], value, caption, messages, matches);
      assert FieldMessages(b, value, caption, messages, matches)
          == FieldMessages(b', value, caption, messages, matches) + last;
      assert FieldMessages(a + b, value, caption, messages, matches)
          == FieldMessages(a + b', value, caption, messages, matches) + last;
    }
  }

  /** A field has no message exactly when none of its rules fails. */
  lemma {:induction false} FieldMessagesEmptyIff(rules: seq<Rule>, value: Value, caption: string,
                                                 messages: MessageTable, matches: string -> bool)
    ensures FieldMessages(rules, value, caption, messages, matches) == []
        <==> forall k :: 0 <= k < |rules| ==> !Fails(rules[k], value, matches)
  {
    if rules != [] {
      var init := rules[..|rules| - 1];
      FieldMessagesEmptyIff(init, value, caption, messages, matches);
      assert forall k :: 0 <= k < |init| ==> init[k] == rules[k];
    }
  }

  /** A field gets at most one message per rule. */
  lemma {:induction false} FieldMessagesAtMostOnePerRule(rules: seq<Rule>, value: Value, caption: string,
                                                         messages: MessageTable, matches: string -> bool)
    ensures |FieldMessages(rules, value, caption, messages, matches)| <= |rules|
  {
    if rules != [] {
      FieldMessagesAtMostOnePerRule(rules[..|rules| - 1], value, caption, messages, matches);
    }
  }

  /** A rule the validators table does not have is skipped without a message. */
  lemma UnknownRuleIgnored(before: seq<Rule>, rule: Rule, after: seq<Rule>, value: Value, caption: string,
                           messages: MessageTable, matches: string -> bool)
    requires rule.name !in KnownRules
    ensures FieldMessages(before + [rule] + after, value, caption, messages, matches)
         == FieldMessages(before + after, value, caption, messages, matches)
  {
    UnknownRuleSilent(rule, value, caption, messages, matches);
    FieldMessagesAppend(before + [rule], after, value, caption, messages, matches);
    FieldMessagesAppend(before, [rule], value, caption, messages, matches);
    FieldMessagesAppend(before, after, value, caption, messages, matches);
    var b := FieldMessages(before, value, caption, messages, matches);
    assert b + [] == b;
  }

  lemma UnknownRuleSilent(rule: Rule, value: Value, caption: string, messages: MessageTable, matches: string -> bool)
    requires rule.name !in KnownRules
    ensures FieldMessages([rule], value, caption, messages, matches) == []
  {
    assert !Fails(rule, value, matches);
    assert [rule][..0] == [];
  }

  // ---------------------------------------------------------------------------
  // validate

  /** A mixin's state: its rule table, its message table and the form definition it reads labels from. */
  datatype Mixin = Mixin(validations: map<string, Value>, messages: MessageTable,
                         definition: Option<seq<FieldDef>>)

  /** The messages of field `f` whose rule-table entry is `rule`. */
  function FieldErrors(m: Mixin, data: Value, f: string, rule: Value, matches: string -> bool): seq<string> {
    FieldMessages(RulesOf(rule), Prop(data, f), DisplayName(m.definition, f), m.messages, matches)
  }

  /**
   * `validate(data, rules)`: every field of the rule table that has messages,
   * mapped to them. A missing table gives no errors; missing data reads as `{}`.
   */
  function Errors(m: Mixin, data: Value, rules: Option<map<string, Value>>, matches: string -> bool)
    : map<string, seq<string>>
  {
    match rules
    case None => map[]
    case Some(table) => ReportedErrors(m, if Truthy(data) then data else Obj(map[]), table, matches)
  }

  /** The fields of `table` with messages on the data object `d`, mapped to them. */
  function ReportedErrors(m: Mixin, d: Value, table: map<string, Value>, matches: string -> bool)
    : map<string, seq<string>>
  {
    map f | f in table && FieldErrors(m, d, f, table[f], matches) != [] :: FieldErrors(m, d, f, table[f], matches)
  }

  /**
   * A field is reported exactly when some rule of its entry fails on the
   * field's value, and it is reported with its messages.
   */
  lemma ErrorsCharacterized(m: Mixin, data: Value, table: map<string, Value>, matches: string -> bool, f: string)
    ensures var errors := Errors(m, data, Some(table), matches);
      (f in errors <==> f in table && exists k :: 0 <= k < |RulesOf(table[f])| && Fails(RulesOf(table[f])[k], Prop(data, f), matches))
      && (f in errors ==> errors[f] == FieldErrors(m, data, f, table[f], matches))
  {
    var d := if Truthy(data) then data else Obj(map[]);
    assert Prop(d, f) == Prop(data, f);
    if f in table {
      FieldMessagesEmptyIff(RulesOf(table[f]), Prop(data, f), DisplayName(m.definition, f), m.messages, matches);
    }
  }

  /** A map reporting exactly the fields whose compiled rules give messages, with those messages, is `validate`'s result. */
  lemma ErrorsFromExploded(m: Mixin, d: Value, table: map<string, Value>, matches: string -> bool,
                           exploded: map<string, seq<Rule>>, errors: map<string, seq<string>>)
    requires exploded.Keys == table.Keys
    requires forall g :: g in table ==> exploded[g] == RulesOf(table[g])
    requires forall g :: g in errors ==> g in exploded
    requires forall g :: g in exploded ==>
      (g in errors <==> CompiledFieldErrors(m, d, g, exploded[g], matches) != [])
      && (g in errors ==> errors[g] == CompiledFieldErrors(m, d, g, exploded[g], matches))
    ensures errors == ReportedErrors(m, d, table, matches)
  {
    var target := ReportedErrors(m, d, table, matches);
    ReportedKeys(m, d, table, matches, exploded, errors);
    ReportedValues(m, d, table, matches, exploded, errors);
    assert errors.Keys == target.Keys;
  }

  lemma ReportedKeys(m: Mixin, d: Value, table: map<string, Value>, matches: string -> bool,
                     exploded: map<string, seq<Rule>>, errors: map<string, seq<string>>)
    requires exploded.Keys == table.Keys
    requires forall g :: g in table ==> exploded[g] == RulesOf(table[g])
    requires forall g :: g in errors ==> g in exploded
    requires forall g :: g in exploded ==>
      (g in errors <==> CompiledFieldErrors(m, d, g, exploded[g], matches) != [])
    ensures errors.Keys == ReportedErrors(m, d, table, matches).Keys
  {
  }

  lemma ReportedValues(m: Mixin, d: Value, table: map<string, Value>, matches: string -> bool,
                       exploded: map<string, seq<Rule>>, errors: map<string, seq<string>>)
    requires forall g :: g in table ==> g in exploded && exploded[g] == RulesOf(table[g])
    requires errors.Keys == ReportedErrors(m, d, table, matches).Keys
    requires forall g :: g in errors && g in exploded ==> errors[g] == CompiledFieldErrors(m, d, g, exploded[g], matches)
    ensures forall g :: g in errors ==> errors[g] == ReportedErrors(m, d, table, matches)[g]
  {
  }

  /** Only fields of the rule table are reported. */
  lemma ErrorsWithinTable(m: Mixin, data: Value, table: map<string, Value>, matches: string -> bool)
    ensures Errors(m, data, Some(table), matches).Keys <= table.Keys
  {
  }

  /**
   * The `forEach` over one field's rules: every failing rule appends its
   * message to the field's entry, which is created on the first failure.
   */
  method CheckField(m: Mixin, errors: map<string, seq<string>>, f: string, rs: seq<Rule>, value: Value,
                    matches: string -> bool)
    returns (updated: map<string, seq<string>>)
    requires f !in errors
    ensures updated - {f} == errors
    ensures var msgs := FieldMessages(rs, value, DisplayName(m.definition, f), m.messages, matches);
      (f in updated <==> msgs != []) && (f in updated ==> updated[f] == msgs)
  {
    var caption := DisplayName(m.definition, f);
    updated := errors;
    ghost var done: seq<string> := [];
    assert rs[..0] == [];
    var j := 0;
    while j < |rs|
      invariant 0 <= j <= |rs|
      invariant done == FieldMessages(rs[..j], value, caption, m.messages, matches)
      invariant updated - {f} == errors
      invariant f in updated <==> done != []
      invariant f in updated ==> updated[f] == done
    {
      FieldMessagesPrefix(rs, j, value, caption, m.messages, matches);
      updated := RecordRule(m, updated, f, caption, rs[j], value, matches, done);
      done := done + RuleMessages(rs[j], value, caption, m.messages, matches);
      j := j + 1;
    }
    assert rs[..|rs|] == rs;
  }

  /**
   * One step of that `forEach`: a known rule that fails appends its message
   * to the entry of `f`, whose messages so far are `done`.
   */
  method RecordRule(m: Mixin, errors: map<string, seq<string>>, f: string, caption: string, rule: Rule,
                    value: Value, matches: string -> bool, ghost done: seq<string>)
    returns (updated: map<string, seq<string>>)
    requires f in errors <==> done != []
    requires f in errors ==> errors[f] == done
    ensures updated - {f} == errors - {f}
    ensures var next := done + RuleMessages(rule, value, caption, m.messages, matches);
      (f in updated <==> next != []) && (f in updated ==> updated[f] == next)
  {
    updated := errors;
    if rule.name in KnownRules && !Passes(rule.name, rule.arg, value, matches) {
      var args := MessageArgs(value, caption, rule.name, rule.arg);
      var list := if f in errors then errors[f] else [];
      var msg := if rule.name in m.messages then m.messages[rule.name](args) else "Invalid.";
      updated := errors[f := list + [msg]];
    } else {
      assert done + [] == done;
    }
  }

  /** The messages of field `f` under its compiled rule list. */
  function CompiledFieldErrors(m: Mixin, data: Value, f: string, rules: seq<Rule>, matches: string -> bool): seq<string> {
    FieldMessages(rules, Prop(data, f), DisplayName(m.definition, f), m.messages, matches)
  }

  /** The `reduce` over the exploded table: every field with messages is reported with them. */
  method CollectErrors(m: Mixin, data: Value, exploded: map<string, seq<Rule>>, matches: string -> bool)
    returns (errors: map<string, seq<string>>)
    ensures forall g :: g in errors ==> g in exploded
    ensures forall g :: g in exploded ==>
      (g in errors <==> CompiledFieldErrors(m, data, g, exploded[g], matches) != [])
      && (g in errors ==> errors[g] == CompiledFieldErrors(m, data, g, exploded[g], matches))
  {
    errors := map[];
    var todo := exploded.Keys;
    while todo != {}
      invariant todo <= exploded.Keys
      invariant forall g :: g in errors ==> g in exploded && g !in todo
      invariant forall g :: g in exploded && g !in todo ==>
        (g in errors <==> CompiledFieldErrors(m, data, g, exploded[g], matches) != [])
        && (g in errors ==> errors[g] == CompiledFieldErrors(m, data, g, exploded[g], matches))
      decreases todo
    {
      var f :| f in todo;
      ghost var before := errors;
      errors := CheckField(m, errors, f, exploded[f], Prop(data, f), matches);
      assert forall g :: g in errors && g != f ==> g in before && errors[g] == before[g];
      todo := todo - {f};
    }
  }

  /** `validate(data, rules)` */
  method Validate(m: Mixin, data: Value, rules: Option<map<string, Value>>, matches: string -> bool)
    returns (errors: map<string, seq<string>>)
    ensures errors == Errors(m, data, rules, matches)
  {
    if rules.None? {
      return map[];
    }
    var d := if Truthy(data) then data else Obj(map[]);
    var exploded := ExplodeRules(rules.value);
    errors := CollectErrors(m, d, exploded, matches);
    ErrorsFromExploded(m, d, rules.value, matches, exploded, errors);
  }

  /** A rule string holding one writable rule compiles to that rule alone. */
  lemma CompiledSingle(r: Rule)
    requires Writable(r)
    ensures RulesOf(Str(Unparse(r))) == [r]
  {
    assert Join([Unparse(r)], "|") == Unparse(r);
    SplitJoin([Unparse(r)], '|');
    UnparseRoundTrip(r);
  }

  /** A field with a single rule gets that rule's message, if any. */
  lemma SingleRuleMessages(rule: Rule, value: Value, caption: string, messages: MessageTable,
                           matches: string -> bool)
    ensures FieldMessages([rule], value, caption, messages, matches)
         == RuleMessages(rule, value, caption, messages, matches)
  {
    assert [rule][..0] == [];
  }

  /** Validating against a one-field table reports that field alone, when it has messages. */
  lemma ErrorsOneField(m: Mixin, data: Value, f: string, rule: Value, matches: string -> bool)
    ensures var msgs := FieldErrors(m, data, f, rule, matches);
      Errors(m, data, Some(map[f := rule]), matches) == if msgs == [] then map[] else map[f := msgs]
  {
    var d := if Truthy(data) then data else Obj(map[]);
    assert Prop(d, f) == Prop(data, f);
  }

  /** `min:5` compiles to one rule, and that rule refuses 3. */
  lemma MinFiveRefusesThree(matches: string -> bool)
    ensures RulesOf(Str("min:5")) == [Rule("min", Some("5"))]
    ensures Fails(Rule("min", Some("5")), Num(3.0), matches)
  {
    var rule := Rule("min", Some("5"));
    assert Unparse(rule) == "min:5";
    CompiledSingle(rule);
    assert NatToString(5) == "5";
    ToNumberNatToString(5);
  }

  /** A field whose value fails `min:5`, with the default messages. */
  lemma ErrorsExampleMin(matches: string -> bool)
    ensures Errors(Mixin(map[], DefaultMessages(), None), Obj(map["age" := Num(3.0)]),
                   Some(map["age" := Str("min:5")]), matches)
         == map["age" := ["age" + " must be greater than " + "5" + "."]]
  {
    var m := Mixin(map[], DefaultMessages(), None);
    var rule := Rule("min", Some("5"));
    MinFiveRefusesThree(matches);
    DefaultMessageUsed(MessageArgs(Num(3.0), "age", "min", Some("5")));
    SingleRuleMessages(rule, Num(3.0), "age", m.messages, matches);
    var data := Obj(map["age" := Num(3.0)]);
    assert FieldErrors(m, data, "age", Str("min:5"), matches) == ["age" + " must be greater than " + "5" + "."];
    ErrorsOneField(m, data, "age", Str("min:5"), matches);
  }

  /** An empty value fails `required`; with no rules there are no errors. */
  lemma ErrorsExampleRequired(matches: string -> bool)
    ensures Errors(Mixin(map[], DefaultMessages(), None), Obj(map["name" := Str("")]),
                   Some(map["name" := Str("required")]), matches)
         == map["name" := ["name" + " is required."]]
    ensures Errors(Mixin(map[], DefaultMessages(), None), Null, Some(map[]), matches) == map[]
  {
    var m := Mixin(map[], DefaultMessages(), None);
    var rule := Rule("required", None);
    CompiledSingle(rule);
    assert Fails(rule, Str(""), matches);
    var args := MessageArgs(Str(""), "name", "required", None);
    DefaultMessageUsed(args);
    assert Message(m.messages, args) == "name" + " is required.";
    SingleRuleMessages(rule, Str(""), "name", m.messages, matches);
    var data := Obj(map["name" := Str("")]);
    assert FieldErrors(m, data, "name", Str("required"), matches) == ["name" + " is required."];
    ErrorsOneField(m, data, "name", Str("required"), matches);
  }

  /** The one-field definition used by the labelled examples. */
  function AgeDefinition(labelText: string): seq<FieldDef> {
    [FieldDef("age", "number", Some(labelText), None, None, [])]
  }

  /**
   * With a definition, a message names the field by its label; an empty
   * label falls back to the field name.
   */
  lemma ErrorsExampleLabel(matches: string -> bool)
    ensures Errors(Mixin(map[], DefaultMessages(), Some(AgeDefinition("Age"))), Obj(map["age" := Num(3.0)]),
                   Some(map["age" := Str("min:5")]), matches)
         == map["age" := ["Age" + " must be greater than " + "5" + "."]]
    ensures Errors(Mixin(map[], DefaultMessages(), Some(AgeDefinition(""))), Obj(map["age" := Num(3.0)]),
                   Some(map["age" := Str("min:5")]), matches)
         == map["age" := ["age" + " must be greater than " + "5" + "."]]
  {
    LabelledMinError("Age", "Age", matches);
    LabelledMinError("", "age", matches);
  }

  /** `min:5` on an age of 3, with the definition labelling the field `labelText`. */
  lemma LabelledMinError(labelText: string, caption: string, matches: string -> bool)
    requires caption == if labelText != "" then labelText else "age"
    ensures Errors(Mixin(map[], DefaultMessages(), Some(AgeDefinition(labelText))), Obj(map["age" := Num(3.0)]),
                   Some(map["age" := Str("min:5")]), matches)
         == map["age" := [caption + " must be greater than " + "5" + "."]]
  {
    var m := Mixin(map[], DefaultMessages(), Some(AgeDefinition(labelText)));
    var rule := Rule("min", Some("5"));
    DisplayNameFirstMatch(AgeDefinition(labelText), "age", 0);
    MinFiveRefusesThree(matches);
    DefaultMessageUsed(MessageArgs(Num(3.0), caption, "min", Some("5")));
    SingleRuleMessages(rule, Num(3.0), caption, m.messages, matches);
    var data := Obj(map["age" := Num(3.0)]);
    assert FieldErrors(m, data, "age", Str("min:5"), matches) == [caption + " must be greater than " + "5" + "."];
    ErrorsOneField(m, data, "age", Str("min:5"), matches);
  }

  /** A failing rule that the message table lacks reports "Invalid.". */
  lemma ErrorsExampleInvalid(matches: string -> bool)
    ensures Errors(Mixin(map[], map[], None), Obj(map["age" := Num(3.0)]), Some(map["age" := Str("min:5")]), matches)
         == map["age" := ["Invalid."]]
  {
    var m := Mixin(map[], map[], None);
    var rule := Rule("min", Some("5"));
    MinFiveRefusesThree(matches);
    SingleRuleMessages(rule, Num(3.0), "age", m.messages, matches);
    var data := Obj(map["age" := Num(3.0)]);
    assert FieldErrors(m, data, "age", Str("min:5"), matches) == ["Invalid."];
    ErrorsOneField(m, data, "age", Str("min:5"), matches);
  }

  // ---------------------------------------------------------------------------
  // The two filters the mixin registers

  /** `isEmpty(this.validations)` */
  predicate NoValidations(m: Mixin) {
    Rules.IsEmpty(Obj(m.validations))
  }

  /** Messages as a JavaScript array of strings. */
  function StrArray(msgs: seq<string>): (r: seq<Value>)
    ensures |r| == |msgs|
    ensures forall k :: 0 <= k < |msgs| ==> r[k] == Str(msgs[k])
  {
    seq(|msgs|, k requires 0 <= k < |msgs| => Str(msgs[k]))
  }

  /** The object `validate` returns: each reported field to the array of its messages. */
  function ErrorsObject(errors: map<string, seq<string>>): (r: map<string, Value>)
    ensures r.Keys == errors.Keys
  {
    map f | f in errors :: Arr(StrArray(errors[f]))
  }

  /** `values.errors = Object.assign({}, values.errors, errors)` when `errors` is not empty. */
  function AttachErrors(values: Value, errors: map<string, seq<string>>): Value {
    if |errors| == 0 then values
    else if values.Obj? then
      Obj(values.props["errors" := Obj(OwnProps(Prop(values, "errors")) + ErrorsObject(errors))])
    else values
  }

  /**
   * Attaching errors leaves the submitted values alone when there are none;
   * otherwise it changes only their `errors` property.
   */
  lemma AttachErrorsKeepsValues(props: map<string, Value>, errors: map<string, seq<string>>)
    ensures var r := AttachErrors(Obj(props), errors);
      && (errors == map[] ==> r == Obj(props))
      && (errors != map[] ==>
            && r.Obj?
            && r.props.Keys == props.Keys + {"errors"}
            && (forall k :: k in props && k != "errors" ==> r.props[k] == props[k]))
  {
    if errors != map[] {
      assert |errors| != 0;
    }
  }

  /**
   * The `errors` property after attaching a non-empty errors map: every
   * reported field with its messages, and the earlier entries of the fields
   * not reported again.
   */
  lemma AttachErrorsMerges(props: map<string, Value>, errors: map<string, seq<string>>)
    requires errors != map[]
    ensures var merged := Prop(AttachErrors(Obj(props), errors), "errors");
      var earlier := OwnProps(Prop(Obj(props), "errors"));
      && merged.Obj?
      && merged.props.Keys == earlier.Keys + errors.Keys
      && (forall f :: f in errors ==> merged.props[f] == Arr(StrArray(errors[f])))
      && (forall f :: f in earlier && f !in errors ==> merged.props[f] == earlier[f])
  {
    assert |errors| != 0;
    var earlier := OwnProps(Prop(Obj(props), "errors"));
    var added := ErrorsObject(errors);
    assert Prop(AttachErrors(Obj(props), errors), "errors") == Obj(earlier + added);
  }

  /**
   * The `submitting` filter: with a rule table, the submitted values are
   * validated and any errors are merged over the values' own `errors`.
   */
  function SubmittingFilter(m: Mixin, values: Value, matches: string -> bool): Value {
    if NoValidations(m) then Undefined
    else AttachErrors(values, Errors(m, values, Some(m.validations), matches))
  }

  /** The `validating` filter: the messages of one field, joined with spaces, or "" when it passes. */
  function ValidatingFilter(m: Mixin, input: Value, matches: string -> bool): Value {
    if NoValidations(m) then Undefined
    else
      var name := Prop(input, "name");
      var value := Prop(input, "value");
      if name.Str? && name.s in m.validations && Truthy(m.validations[name.s]) then
        var errors := Errors(m, Obj(map[name.s := value]), Some(map[name.s := m.validations[name.s]]), matches);
        if |errors| != 0 && name.s in errors then Str(Join(errors[name.s], " "))
        else Str("")
      else Str("")
  }

  /**
   * What the `validating` filter answers for the field `input.name`: the
   * space-joined messages of its rules on `input.value`, "" when it passes or
   * has no rule, and `undefined` when the mixin has no rules at all.
   */
  lemma ValidatingFilterAnswer(m: Mixin, input: Value, matches: string -> bool)
    ensures var r := ValidatingFilter(m, input, matches);
      var name := Prop(input, "name");
      && (NoValidations(m) ==> r == Undefined)
      && (!NoValidations(m) && !(name.Str? && name.s in m.validations && Truthy(m.validations[name.s])) ==> r == Str(""))
      && (!NoValidations(m) && name.Str? && name.s in m.validations && Truthy(m.validations[name.s]) ==>
            r == Str(Join(FieldErrors(m, Obj(map[name.s := Prop(input, "value")]), name.s, m.validations[name.s], matches), " ")))
  {
    var name := Prop(input, "name");
    if !NoValidations(m) && name.Str? && name.s in m.validations && Truthy(m.validations[name.s]) {
      var data := Obj(map[name.s := Prop(input, "value")]);
      ErrorsOneField(m, data, name.s, m.validations[name.s], matches);
      var msgs := FieldErrors(m, data, name.s, m.validations[name.s], matches);
      if msgs == [] {
        assert Join(msgs, " ") == "";
      }
    }
  }

  /** `required` compiles to one rule, and that rule refuses a missing value. */
  lemma RequiredRefusesUndefined(matches: string -> bool)
    ensures RulesOf(Str("required")) == [Rule("required", None)]
    ensures Fails(Rule("required", None), Undefined, matches)
  {
    CompiledSingle(Rule("required", None));
  }

  /**
   * The checkbox branch of a form passes `{name, values}` to `validating`,
   * so a required checkbox group is always reported as missing: its rules see
   * no `value`.
   */
  lemma CheckboxGroupAlwaysMissing(m: Mixin, name: string, checked: string, matches: string -> bool)
    requires name in m.validations && m.validations[name] == Str("required")
    requires "required" in m.messages
    ensures ValidatingFilter(m, Obj(map["name" := Str(name), "values" := Str(checked)]), matches)
         == Str(m.messages["required"](MessageArgs(Undefined, DisplayName(m.definition, name), "required", None)))
  {
    var input := Obj(map["name" := Str(name), "values" := Str(checked)]);
    assert Prop(input, "name") == Str(name);
    assert Prop(input, "value") == Undefined;
    assert !NoValidations(m);
    ValidatingFilterAnswer(m, input, matches);
    RequiredRefusesUndefined(matches);
    var caption := DisplayName(m.definition, name);
    SingleRuleMessages(Rule("required", None), Undefined, caption, m.messages, matches);
  }
}
