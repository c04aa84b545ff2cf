/**
 * The value predicates of rules/index.js. Each is total over JavaScript values;
 * the e-mail regular expression is not modelled and enters as the predicate
 * `matches` on strings.
 */
module Rules {
  import opened JsValues

  /** `obj !== null && obj !== undefined` */
  predicate IsDefined(v: Value) {
    !v.Undefined? && !v.Null?
  }

  /** `typeof value === 'function'` */
  predicate IsFunction(v: Value) {
    v.Func?
  }

  /** `typeof value === 'string'` */
  predicate IsString(v: Value) {
    v.Str?
  }

  /** `typeof value === 'number' && !isNaN(value)`: infinities count as numbers. */
  predicate IsNumber(v: Value) {
    v.Num? || v.Infinity?
  }

  /** `isNumber(value) && value % 1 === 0`: for an infinity `% 1` is NaN. */
  predicate IsInteger(v: Value) {
    IsNumber(v) && v.Num? && v.n == v.n.Floor as real
  }

  /** `{}.toString.call(value) === '[object Array]'` */
  predicate IsArray(v: Value) {
    v.Arr?
  }

  /** `obj === Object(obj)`: true of objects, arrays, functions and dates, false of primitives. */
  predicate IsObject(v: Value) {
    v.Obj? || v.Arr? || v.Func? || v.Date?
  }

  /** `typeof value === 'boolean'` */
  predicate IsBoolean(v: Value) {
    v.Bool?
  }

  /** `obj instanceof Date` */
  predicate IsDate(v: Value) {
    v.Date?
  }

  /** The chain of early returns of `isEmpty`, in the order the code tests them. */
  predicate IsEmpty(v: Value) {
    if !IsDefined(v) then true
    else if IsFunction(v) then false
    else if IsString(v) then AllWhitespace(v.s)
    else if IsArray(v) then |v.items| == 0
    else if IsDate(v) then false
    else if IsObject(v) then |v.props| == 0   // `for (attr in value) return false;`
    else false
  }

  /** `isEmail`: defined, a string, and accepted by the e-mail pattern. */
  predicate IsEmail(v: Value, matches: string -> bool) {
    if !IsDefined(v) then false
    else if !IsString(v) then false
    else matches(v.s)
  }

  /** What `isEmpty` answers, kind of value by kind of value. */
  lemma IsEmptyByKind(v: Value)
    ensures v.Undefined? || v.Null? ==> IsEmpty(v)
    ensures v.Func? ==> !IsEmpty(v)
    ensures v.Str? ==> (IsEmpty(v) <==> forall i :: 0 <= i < |v.s| ==> IsWhitespace(v.s[i]))
    ensures v.Arr? ==> (IsEmpty(v) <==> |v.items| == 0)
    ensures v.Date? ==> !IsEmpty(v)
    ensures v.Obj? ==> (IsEmpty(v) <==> v.props == map[])
    ensures v.Num? || v.Infinity? || v.NaN? || v.Bool? ==> !IsEmpty(v)
  {
    if v.Obj? && v.props != map[] {
      var k :| k in v.props;
    }
  }

  /** Emptiness at the boundaries. */
  lemma IsEmptyExamples()
    ensures IsEmpty(Str("   ")) && IsEmpty(Arr([])) && IsEmpty(Obj(map[]))
    ensures !IsEmpty(Num(0.0)) && !IsEmpty(Date(0)) && !IsEmpty(Obj(map["a" := Num(1.0)]))
    ensures !IsEmpty(Str(" a ")) && !IsEmpty(Bool(false))
  {
    assert !IsWhitespace(" a "[1]);
  }

  /** NaN is not a number, every integer is a number, and an infinity is not an integer. */
  lemma NumberClassification(v: Value, k: int)
    ensures v.NaN? ==> !IsNumber(v) && !IsInteger(v)
    ensures IsInteger(v) ==> IsNumber(v)
    ensures v.Infinity? ==> IsNumber(v) && !IsInteger(v)
    ensures IsInteger(Num(k as real)) && !IsInteger(Num(k as real + 0.5))
  {
    assert (k as real + 0.5).Floor == k;
  }

  /** `isEmail` is false for null, undefined and every non-string, whatever the pattern. */
  lemma IsEmailOnlyStrings(v: Value, matches: string -> bool)
    ensures IsEmail(v, matches) <==> v.Str? && matches(v.s)
  {
  }
}
