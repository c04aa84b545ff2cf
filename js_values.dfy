/**
 * The JavaScript values the form toolkit inspects, and the few language
 * built-ins its code relies on: truthiness, property lookup on plain objects,
 * `String.prototype.split`, `Array.prototype.join`, the `\s` character class
 * and the numeric coercion of a string (`Number(s)`).
 */
module JsValues {
  import opened Wrappers

  /** A JavaScript value. `Obj` is a plain object with its own enumerable properties. */
  datatype Value =
    | Undefined
    | Null
    | Func(id: nat)               // a function object, known by identity only
    | Str(s: string)
    | Arr(items: seq<Value>)
    | Date(time: int)
    | Obj(props: map<string, Value>)
    | Num(n: real)                // a finite number
    | Infinity(negative: bool)    // +Infinity or -Infinity
    | NaN
    | Bool(b: bool)

  /** `!!v` */
  predicate Truthy(v: Value) {
    match v
    case Undefined => false
    case Null => false
    case Str(s) => s != ""
    case Num(n) => n != 0.0
    case NaN => false
    case Bool(b) => b
    case _ => true
  }

  /** `v[key]` for the property reads the toolkit performs: own properties of a plain object. */
  function Prop(v: Value, key: string): (r: Value)
    ensures !v.Obj? ==> r == Undefined
    ensures v.Obj? && key !in v.props ==> r == Undefined
  {
    if v.Obj? && key in v.props then v.props[key] else Undefined
  }

  /** The own enumerable properties of a value, as `Object.assign` copies them from an object. */
  function OwnProps(v: Value): map<string, Value> {
    if v.Obj? then v.props else map[]
  }

  /** `Object.keys(v).length > 0` for a truthy value: it has an own enumerable key. */
  predicate HasOwnKeys(v: Value) {
    match v
    case Obj(props) => exists k :: k in props
    case Str(s) => s != ""
    case Arr(items) => items != []
    case _ => false
  }

  // ---------------------------------------------------------------------------
  // Strings

  /** The characters JavaScript's regular expression class `\s` matches. */
  predicate IsWhitespace(c: char) {
    || c == ' ' || c == '\t' || c == '\n' || c == '\r'
    || c == '\U{000B}' || c == '\U{000C}' || c == '\U{00A0}' || c == '\U{1680}'
    || ('\U{2000}' <= c <= '\U{200A}')
    || c == '\U{2028}' || c == '\U{2029}' || c == '\U{202F}' || c == '\U{205F}'
    || c == '\U{3000}' || c == '\U{FEFF}'
  }

  /** `/^\s*$/.test(s)` */
  predicate AllWhitespace(s: string) {
    forall i :: 0 <= i < |s| ==> IsWhitespace(s[i])
  }

  /** Index of the first occurrence of `c` in `s`. */
  function IndexOf(s: string, c: char): (i: nat)
    requires c in s
    ensures i < |s| && s[i] == c && c !in s[..i]
  {
    if s[0] == c then 0 else 1 + IndexOf(s[1..], c)
  }

  /** `s.split(sep)` for a one-character separator. */
  function Split(s: string, sep: char): (parts: seq<string>)
    ensures |parts| >= 1
    ensures sep in s ==> |parts| >= 2
    decreases |s|
  {
    if sep in s then
      var i := IndexOf(s, sep);
      [s[..i]] + Split(s[i + 1..], sep)
    else
      [s]
  }

  /** No piece of a split holds the separator, and there is more than one piece exactly when `s` has it. */
  lemma {:induction false} SplitPieces(s: string, sep: char)
    ensures forall i :: 0 <= i < |Split(s, sep)| ==> sep !in Split(s, sep)[i]
    ensures sep in s <==> |Split(s, sep)| >= 2
    decreases |s|
  {
    if sep in s {
      var i := IndexOf(s, sep);
      SplitPieces(s[i + 1..], sep);
      assert Split(s, sep) == [s[..i]] + Split(s[i + 1..], sep);
    }
  }

  /** `parts.join(sep)` */
  function Join(parts: seq<string>, sep: string): string {
    if |parts| == 0 then ""
    else if |parts| == 1 then parts[0]
    else parts[0] + sep + Join(parts[1..], sep)
  }

  /** Splitting and joining with the same separator gives back the string. */
  lemma {:induction false} JoinSplit(s: string, sep: char)
    ensures Join(Split(s, sep), [sep]) == s
    decreases |s|
  {
    if sep in s {
      var i := IndexOf(s, sep);
      var rest := s[i + 1..];
      JoinSplit(rest, sep);
      var parts := Split(s, sep);
      assert parts == [s[..i]] + Split(rest, sep);
      assert parts[1..] == Split(rest, sep);
      assert s == s[..i] + [sep] + rest;
    }
  }

  /** Splitting a joined list of separator-free pieces gives the pieces back. */
  lemma {:induction false} SplitJoin(parts: seq<string>, sep: char)
    requires |parts| >= 1
    requires forall i :: 0 <= i < |parts| ==> sep !in parts[i]
    ensures Split(Join(parts, [sep]), sep) == parts
  {
    if |parts| > 1 {
      var rest := Join(parts[1..], [sep]);
      SplitJoin(parts[1..], sep);
      var s := parts[0] + [sep] + rest;
      assert s[|parts[0]|] == sep;
      assert sep !in s[..|parts[0]|] by { assert s[..|parts[0]|] == parts[0]; }
      IndexOfFirst(s, sep, |parts[0]|);
      assert s[..|parts[0]|] == parts[0];
      assert s[|parts[0]| + 1..] == rest;
    }
  }

  lemma IndexOfFirst(s: string, c: char, k: nat)
    requires k < |s| && s[k] == c && c !in s[..k]
    ensures IndexOf(s, c) == k
  {
    var i := IndexOf(s, c);
    assert forall j :: 0 <= j < k ==> s[..k][j] == s[j];
    assert forall j :: 0 <= j < i ==> s[..i][j] == s[j];
  }

  /** `s.trim()` */
  function Trim(s: string): (t: string)
    ensures |t| <= |s|
    ensures t == "" <==> AllWhitespace(s)
    ensures t != "" ==> !IsWhitespace(t[0]) && !IsWhitespace(t[|t| - 1])
  {
    TrimEnd(TrimStart(s))
  }

  function TrimStart(s: string): (t: string)
    ensures |t| <= |s| && t == s[|s| - |t|..]
    ensures t == "" <==> AllWhitespace(s)
    ensures t != "" ==> !IsWhitespace(t[0])
  {
    if s != [] && IsWhitespace(s[0]) then
      var t := TrimStart(s[1..]);
      assert s[1..][|s[1..]| - |t|..] == s[|s| - |t|..];
      t
    else s
  }

  function TrimEnd(s: string): (t: string)
    ensures |t| <= |s| && t == s[..|t|]
    ensures t == "" <==> AllWhitespace(s)
    ensures t != "" ==> !IsWhitespace(t[|t| - 1])
    ensures s != "" && !IsWhitespace(s[0]) && t != "" ==> t[0] == s[0]
  {
    if s != [] && IsWhitespace(s[|s| - 1]) then
      var t := TrimEnd(s[..|s| - 1]);
      assert s[..|s| - 1][..|t|] == s[..|t|];
      t
    else s
  }

  // ---------------------------------------------------------------------------
  // Numbers

  predicate IsDigit(c: char) { '0' <= c <= '9' }

  predicate AllDigits(s: string) { forall i :: 0 <= i < |s| ==> IsDigit(s[i]) }

  function DigitsValue(d: string): nat
    requires AllDigits(d)
  {
    if d == [] then 0
    else DigitsValue(d[..|d| - 1]) * 10 + ((d[|d| - 1] as int) - ('0' as int))
  }

  /** The value of the digits after a decimal point: `0.d1d2...` is `(d1 + 0.d2...) / 10`. */
  function FracValue(frac: string): real
    requires AllDigits(frac)
  {
    if frac == [] then 0.0
    else (((frac[0] as int) - ('0' as int)) as real + FracValue(frac[1..])) / 10.0
  }

  /** Decimal literal without sign: digits, optionally a point and more digits; at least one digit. */
  function ParseUnsigned(t: string): Option<real> {
    if '.' in t then
      var i := IndexOf(t, '.');
      var whole, frac := t[..i], t[i + 1..];
      if AllDigits(whole) && AllDigits(frac) && |whole| + |frac| > 0 then Some(Magnitude(whole, frac))
      else None
    else if t != "" && AllDigits(t) then Some(DigitsValue(t) as real)
    else None
  }

  /** The value of whole digits followed by fraction digits. */
  function Magnitude(whole: string, frac: string): real
    requires AllDigits(whole) && AllDigits(frac)
  {
    DigitsValue(whole) as real + FracValue(frac)
  }

  /** A decimal literal with an optional `+` or `-` sign. */
  function ParseDecimal(t: string): Option<real> {
    if t != "" && t[0] == '-' then
      match ParseUnsigned(t[1..])
      case Some(r) => Some(-r)
      case None => None
    else if t != "" && t[0] == '+' then ParseUnsigned(t[1..])
    else ParseUnsigned(t)
  }

  /** `Number(s)`: surrounding white space is ignored and a blank string is 0. */
  function ToNumber(s: string): (r: Value)
    ensures r.Num? || r.NaN?
    ensures AllWhitespace(s) ==> r == Num(0.0)
  {
    var t := Trim(s);
    if t == "" then Num(0.0)
    else match ParseDecimal(t)
      case Some(x) => Num(x)
      case None => NaN
  }

  /** The decimal digits of a natural number. */
  function NatToString(n: nat): (s: string)
    ensures s != "" && AllDigits(s)
  {
    if n < 10 then [('0' as int + n) as char]
    else NatToString(n / 10) + [('0' as int + n % 10) as char]
  }

  /** Reading back the digits of `n` gives `n`. */
  lemma {:induction false} DigitsValueNatToString(n: nat)
    ensures DigitsValue(NatToString(n)) == n
  {
    if n >= 10 {
      DigitsValueNatToString(n / 10);
      var s := NatToString(n);
      assert s[..|s| - 1] == NatToString(n / 10);
    }
  }

  /** `Number` reads back the decimal rendering of every natural number. */
  lemma ToNumberNatToString(n: nat)
    ensures ToNumber(NatToString(n)) == Num(n as real)
  {
    var s := NatToString(n);
    assert !IsWhitespace(s[0]) && !IsWhitespace(s[|s| - 1]);
    assert Trim(s) == s by {
      assert TrimStart(s) == s;
      assert TrimEnd(s) == s;
    }
    assert forall j :: 0 <= j < |s| ==> s[j] != '.';
    DigitsValueNatToString(n);
  }

  /** An optional sign: none, `+` or `-`. */
  predicate IsSign(sign: string) {
    sign == "" || sign == "+" || sign == "-"
  }

  /** A value read after `sign`: negated after a minus. */
  function Signed(sign: string, m: real): real {
    if sign == "-" then -m else m
  }

  /** A string without white space at either end is its own trim. */
  lemma TrimUntouched(t: string)
    requires t != "" && !IsWhitespace(t[0]) && !IsWhitespace(t[|t| - 1])
    ensures Trim(t) == t
  {
    assert TrimStart(t) == t;
    assert TrimEnd(t) == t;
  }

  /** Digits, a point and digits: the point found by `indexOf` is the one between them. */
  lemma ParseUnsignedPoint(whole: string, frac: string)
    requires AllDigits(whole) && AllDigits(frac)
    ensures |whole| + |frac| > 0 ==>
              ParseUnsigned(whole + "." + frac) == Some(Magnitude(whole, frac))
    ensures |whole| + |frac| == 0 ==> ParseUnsigned(whole + "." + frac) == None
  {
    var u := whole + "." + frac;
    assert u[|whole|] == '.';
    assert u[..|whole|] == whole;
    IndexOfFirst(u, '.', |whole|);
    assert u[|whole| + 1..] == frac;
  }

  /** Digits alone read as their value. */
  lemma ParseUnsignedDigits(whole: string)
    requires whole != "" && AllDigits(whole)
    ensures ParseUnsigned(whole) == Some(Magnitude(whole, ""))
  {
    assert '.' !in whole;
    assert Magnitude(whole, "") == DigitsValue(whole) as real;
  }

  /** The sign in front of an unsigned literal is applied to its value. */
  lemma ParseDecimalSign(sign: string, u: string, m: Option<real>)
    requires IsSign(sign) && u != "" && (IsDigit(u[0]) || u[0] == '.')
    requires ParseUnsigned(u) == m
    ensures m.Some? ==> ParseDecimal(sign + u) == Some(Signed(sign, m.value))
    ensures m.None? ==> ParseDecimal(sign + u) == None
  {
    var t := sign + u;
    assert t[|sign|..] == u;
    assert sign == "" ==> t == u;
  }

  /** A sign in front of an unsigned literal with no white space around it: the literal's value, signed. */
  lemma ToNumberSignedValue(sign: string, u: string, t: string, m: real)
    requires IsSign(sign) && u != "" && (IsDigit(u[0]) || u[0] == '.') && !IsWhitespace(u[|u| - 1])
    requires t == sign + u && ParseUnsigned(u) == Some(m)
    ensures ToNumber(t) == Num(Signed(sign, m))
  {
    assert t[|t| - 1] == u[|u| - 1];
    assert t[0] == (if sign != "" then sign[0] else u[0]);
    TrimUntouched(t);
    ParseDecimalSign(sign, u, Some(m));
    ToNumberOfTrimmed(t, Signed(sign, m));
  }

  /** A string that is its own trim and reads as `x` is the number `x`. */
  lemma ToNumberOfTrimmed(t: string, x: real)
    requires t != "" && Trim(t) == t && ParseDecimal(t) == Some(x)
    ensures ToNumber(t) == Num(x)
  {
  }

  lemma ToNumberPointed(sign: string, whole: string, frac: string)
    requires IsSign(sign) && AllDigits(whole) && AllDigits(frac) && |whole| + |frac| > 0
    ensures ToNumber(sign + whole + "." + frac) == Num(Signed(sign, Magnitude(whole, frac)))
  {
    var u := whole + "." + frac;
    assert sign + whole + "." + frac == sign + u;
    assert u[0] == (if whole != "" then whole[0] else '.');
    assert u[|u| - 1] == (if frac == "" then '.' else frac[|frac| - 1]);
    ParseUnsignedPoint(whole, frac);
    ToNumberSignedValue(sign, u, sign + whole + "." + frac, Magnitude(whole, frac));
  }

  lemma ToNumberWhole(sign: string, whole: string)
    requires IsSign(sign) && whole != "" && AllDigits(whole)
    ensures ToNumber(sign + whole) == Num(Signed(sign, Magnitude(whole, "")))
  {
    ParseUnsignedDigits(whole);
    ToNumberSignedValue(sign, whole, sign + whole, Magnitude(whole, ""));
  }

  lemma ToNumberLonePoint(sign: string)
    requires IsSign(sign)
    ensures ToNumber(sign + ".") == NaN
  {
    var t := sign + ".";
    assert t[|t| - 1] == '.';
    assert t[0] == (if sign != "" then sign[0] else '.');
    TrimUntouched(t);
    ParseDecimalSign(sign, ".", None);
    ParseUnsignedPoint("", "");
    assert "" + "." + "" == ".";
  }

  /**
   * `Number` reads a decimal literal: an optional sign, digits, and optionally
   * a point followed by more digits, with at least one digit in all; a lone
   * point with no digit around it is NaN.
   */
  lemma ToNumberDecimal(sign: string, whole: string, frac: string)
    requires IsSign(sign) && AllDigits(whole) && AllDigits(frac)
    ensures |whole| + |frac| > 0 ==>
              ToNumber(sign + whole + "." + frac) == Num(Signed(sign, Magnitude(whole, frac)))
    ensures whole != "" ==>
              ToNumber(sign + whole) == Num(Signed(sign, Magnitude(whole, "")))
    ensures ToNumber(sign + ".") == NaN
  {
    if |whole| + |frac| > 0 {
      ToNumberPointed(sign, whole, frac);
    }
    if whole != "" {
      ToNumberWhole(sign, whole);
    }
    ToNumberLonePoint(sign);
  }

  /** JavaScript's `a >= b` for two numeric values: false as soon as either side is NaN. */
  predicate NumberGe(a: Value, b: Value)
    requires a.Num? || a.Infinity? || a.NaN?
    requires b.Num? || b.Infinity? || b.NaN?
  {
    if a.NaN? || b.NaN? then false
    else if a == Infinity(false) || b == Infinity(true) then true
    else if a == Infinity(true) || b == Infinity(false) then false
    else a.n >= b.n
  }
}
