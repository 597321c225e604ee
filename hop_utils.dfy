/**
 * Type predicates of the validator (lib/hop/utils.js) over JavaScript values.
 * Number parsing is restricted to plain decimal text: an optional sign,
 * digits and at most one decimal point (see README, "Left out").
 */
module HopUtils {
  import opened Json
  import opened Wrappers

  /** `typeof data === 'string'` */
  predicate IsString(v: Value) {
    v.Str?
  }

  /** `isObject(data) && Array.isArray(data)` */
  predicate IsArray(v: Value) {
    IsObject(v) && v.Arr?
  }

  /** `typeof data === 'undefined'` */
  predicate IsUndefined(v: Value) {
    v.Undefined?
  }

  /** `isObject(data) && data === null` */
  predicate IsNull(v: Value) {
    IsObject(v) && v.Null?
  }

  /** undefined, null or the empty string */
  predicate IsEmpty(v: Value) {
    IsUndefined(v) || IsNull(v) || (IsString(v) && v.s == "")
  }

  // ---------------------------------------------------------------------------
  // String.prototype.trim

  /** The ECMAScript WhiteSpace and LineTerminator code points. */
  predicate IsSpace(c: char) {
    || c == '\t' || c == '\n' || c == '\U{B}' || c == '\U{C}' || c == '\r' || c == ' '
    || c == '\U{A0}' || c == '\U{1680}' || ('\U{2000}' <= c <= '\U{200A}')
    || c == '\U{2028}' || c == '\U{2029}' || c == '\U{202F}' || c == '\U{205F}'
    || c == '\U{3000}' || c == '\U{FEFF}'
  }

  function TrimStart(s: string): (t: string)
    ensures |t| <= |s|
  {
    if s != [] && IsSpace(s[0]) then TrimStart(s[1..]) else s
  }

  /** `TrimStart` cuts a run of white space off the front and stops at the first other character. */
  lemma {:induction false} TrimStartCutsSpaces(s: string)
    ensures TrimStart(s) == s[|s| - |TrimStart(s)|..]
    ensures TrimStart(s) == [] || !IsSpace(TrimStart(s)[0])
    ensures forall i :: 0 <= i < |s| - |TrimStart(s)| ==> IsSpace(s[i])
  {
    if s != [] && IsSpace(s[0]) {
      TrimStartCutsSpaces(s[1..]);
      assert s[1..][|s| - 1 - |TrimStart(s)|..] == s[|s| - |TrimStart(s)|..];
      forall i | 1 <= i < |s| - |TrimStart(s)|
        ensures IsSpace(s[i])
      {
        assert s[i] == s[1..][i - 1];
      }
    }
  }

  function TrimEnd(s: string): (t: string)
    ensures |t| <= |s|
  {
    if s != [] && IsSpace(s[|s| - 1]) then TrimEnd(s[..|s| - 1]) else s
  }

  /** `TrimEnd` cuts a run of white space off the back and stops at the last other character. */
  lemma {:induction false} TrimEndCutsSpaces(s: string)
    ensures TrimEnd(s) == s[..|TrimEnd(s)|]
    ensures TrimEnd(s) == [] || !IsSpace(TrimEnd(s)[|TrimEnd(s)| - 1])
    ensures forall i :: |TrimEnd(s)| <= i < |s| ==> IsSpace(s[i])
  {
    if s != [] && IsSpace(s[|s| - 1]) {
      TrimEndCutsSpaces(s[..|s| - 1]);
      assert s[..|s| - 1][..|TrimEnd(s)|] == s[..|TrimEnd(s)|];
      forall i | |TrimEnd(s)| <= i < |s| - 1
        ensures IsSpace(s[i])
      {
        assert s[i] == s[..|s| - 1][i];
      }
    }
  }

  /** `s.trim()` */
  function Trim(s: string): string {
    TrimEnd(TrimStart(s))
  }

  /**
   * The trimmed text is the slice of `s` between the leading and the trailing
   * white space; it neither starts nor ends with white space.
   */
  lemma TrimIsSlice(s: string)
    ensures var i := |s| - |TrimStart(s)|;
            i + |Trim(s)| <= |s| && Trim(s) == s[i..i + |Trim(s)|]
    ensures Trim(s) == [] || (!IsSpace(Trim(s)[0]) && !IsSpace(Trim(s)[|Trim(s)| - 1]))
  {
    var a := TrimStart(s);
    var t := TrimEnd(a);
    TrimStartCutsSpaces(s);
    TrimEndCutsSpaces(a);
    var i := |s| - |a|;
    assert a == s[i..];
    assert t == a[..|t|];
    assert a[..|t|] == s[i..i + |t|];
    assert Trim(s) == t;
    if t != [] {
      assert t[0] == a[0] && !IsSpace(a[0]);
      assert !IsSpace(t[0]) && !IsSpace(t[|t| - 1]);
    }
  }

  /** What `Trim` cuts off at either end is white space. */
  lemma TrimDropsSpaces(s: string)
    ensures var i := |s| - |TrimStart(s)|;
            && (forall k :: 0 <= k < i ==> IsSpace(s[k]))
            && (forall k :: i + |Trim(s)| <= k < |s| ==> IsSpace(s[k]))
  {
    var a := TrimStart(s);
    TrimStartCutsSpaces(s);
    TrimEndCutsSpaces(a);
    var i := |s| - |a|;
    forall k | i + |Trim(s)| <= k < |s|
      ensures IsSpace(s[k])
    {
      assert s[k] == a[k - i];
    }
  }

  /** A string of white space only trims to the empty string. */
  lemma BlankTrimsToEmpty(s: string)
    requires forall k :: 0 <= k < |s| ==> IsSpace(s[k])
    ensures Trim(s) == ""
  {
    TrimStartCutsSpaces(s);
  }

  /** A string that neither starts nor ends with white space is its own trim. */
  lemma TrimUnpadded(s: string)
    requires s == [] || (!IsSpace(s[0]) && !IsSpace(s[|s| - 1]))
    ensures Trim(s) == s
  {
  }

  /** One space on either side of such a string is exactly what `trim` removes. */
  lemma TrimPadded(s: string)
    requires s != [] && !IsSpace(s[0]) && !IsSpace(s[|s| - 1])
    ensures Trim(" " + s + " ") == s
  {
    var p := " " + s + " ";
    assert p[1..] == s + " ";
    assert TrimStart(p) == s + " ";
    assert (s + " ")[..|s|] == s;
    assert TrimEnd(s + " ") == s;
  }

  // ---------------------------------------------------------------------------
  // Decimal text, as Number(text) reads it

  /**
   * The leading run of decimal digits of `u`: how many digits there are, and
   * the number they denote when appended to the digits already read into `acc`.
   */
  function DigitRun(u: string, acc: nat): (r: (nat, nat))
    ensures r.0 <= |u|
  {
    if u != [] && IsDigit(u[0]) then
      var r := DigitRun(u[1..], acc * 10 + ((u[0] as int) - ('0' as int)));
      (r.0 + 1, r.1)
    else (0, acc)
  }

  /** The run stops at the first character that is not a digit. */
  lemma {:induction false} DigitRunIsDigits(u: string, acc: nat)
    ensures forall k :: 0 <= k < DigitRun(u, acc).0 ==> IsDigit(u[k])
    ensures DigitRun(u, acc).0 < |u| ==> !IsDigit(u[DigitRun(u, acc).0])
  {
    if u != [] && IsDigit(u[0]) {
      var next := acc * 10 + ((u[0] as int) - ('0' as int));
      DigitRunIsDigits(u[1..], next);
      forall k | 1 <= k < DigitRun(u, acc).0
        ensures IsDigit(u[k])
      {
        assert u[k] == u[1..][k - 1];
      }
    }
  }

  /**
   * Finite decimal text as `Number` reads it: an optional sign, digits, an
   * optional point and digits, with at least one digit in all.
   */
  datatype Decimal = Decimal(negative: bool, whole: nat, wholeDigits: nat, frac: nat, fracDigits: nat)

  function ParseUnsigned(u: string, negative: bool): Option<Decimal> {
    var (w, whole) := DigitRun(u, 0);
    if w == |u| then
      if w > 0 then Some(Decimal(negative, whole, w, 0, 0)) else None
    else if u[w] != '.' then None
    else
      var (f, frac) := DigitRun(u[w + 1..], 0);
      if w + 1 + f == |u| && (w > 0 || f > 0) then Some(Decimal(negative, whole, w, frac, f)) else None
  }

  function ParseDecimal(t: string): Option<Decimal> {
    if t != [] && (t[0] == '+' || t[0] == '-') then ParseUnsigned(t[1..], t[0] == '-')
    else ParseUnsigned(t, false)
  }

  function Pow10(n: nat): (p: nat)
    ensures p > 0
  {
    if n == 0 then 1 else 10 * Pow10(n - 1)
  }

  function DecimalReal(d: Decimal): real {
    var magnitude := d.whole as real + d.frac as real / Pow10(d.fracDigits) as real;
    if d.negative then -magnitude else magnitude
  }

  /** The characters decimal text is made of. */
  predicate NumericChar(c: char) {
    IsDigit(c) || c == '+' || c == '-' || c == '.'
  }

  /** Text that parses holds nothing but digits, signs and points. */
  lemma ParsedTextIsNumeric(t: string)
    requires ParseDecimal(t).Some?
    ensures forall k :: 0 <= k < |t| ==> NumericChar(t[k])
  {
    var signed := t != [] && (t[0] == '+' || t[0] == '-');
    var u := if signed then t[1..] else t;
    var off := if signed then 1 else 0;
    DigitRunIsDigits(u, 0);
    var w := DigitRun(u, 0).0;
    if w < |u| {
      DigitRunIsDigits(u[w + 1..], 0);
    }
    forall k | 0 <= k < |t|
      ensures NumericChar(t[k])
    {
      if k >= off {
        var j := k - off;
        assert t[k] == u[j];
        if j > w {
          assert u[j] == u[w + 1..][j - w - 1];
        }
      }
    }
  }

  // ---------------------------------------------------------------------------
  // isNumber, isFloat, isInteger

  /**
   * `isNumber`: not empty once trimmed, and `Number(data)` is not NaN.
   * Booleans convert to 1 and 0. An array converts through its text
   * `data.join(',')`, where blank text is 0; an object's text is
   * `[object Object]`, which is NaN.
   */
  predicate IsNumber(v: Value) {
    match v
    case Bool(_) => true
    case Num(_) => true
    case Str(s) => ParseDecimal(Trim(s)).Some?
    case Arr(_) => Trim(ToText(v)) == [] || ParseDecimal(Trim(ToText(v))).Some?
    case _ => false
  }

  /**
   * Text holding a character that is neither white space nor a digit, sign
   * or point (a letter, say) is not a number.
   */
  lemma NonNumericTextNotNumber(s: string, k: nat)
    requires k < |s| && !IsSpace(s[k]) && !NumericChar(s[k])
    ensures !IsNumber(Str(s))
  {
    if IsNumber(Str(s)) {
      TrimIsSlice(s);
      TrimDropsSpaces(s);
      var i := |s| - |TrimStart(s)|;
      assert i <= k < i + |Trim(s)|;
      assert Trim(s)[k - i] == s[k];
      ParsedTextIsNumeric(Trim(s));
    }
  }

  /** `Number(data)` for a value that `IsNumber` accepts. */
  function NumberValue(v: Value): real
    requires IsNumber(v)
  {
    match v
    case Bool(b) => if b then 1.0 else 0.0
    case Num(n) => n
    case Str(s) => DecimalReal(ParseDecimal(Trim(s)).value)
    case Arr(_) =>
      if Trim(ToText(v)) == [] then 0.0 else DecimalReal(ParseDecimal(Trim(ToText(v))).value)
  }

  predicate IsWhole(r: real) {
    r == r.Floor as real
  }

  /**
   * `Number(data) === parseFloat(data)`; `parseFloat(true)` is NaN, and so
   * is `parseFloat` of an array whose text is blank.
   */
  predicate IsFloat(v: Value) {
    IsNumber(v) && !v.Bool? && !(v.Arr? && Trim(ToText(v)) == [])
  }

  /**
   * `Number(data) === parseInt(data, 10)`: a whole number, and for text
   * there must be a digit before any decimal point (`parseInt('.0')` is NaN).
   */
  predicate IsInteger(v: Value) {
    IsNumber(v) &&
    match v
    case Num(n) => IsWhole(n)
    case Str(s) => ParseDecimal(Trim(s)).value.wholeDigits > 0 && IsWhole(NumberValue(v))
    case Arr(_) =>
      Trim(ToText(v)) != [] && ParseDecimal(Trim(ToText(v))).value.wholeDigits > 0 && IsWhole(NumberValue(v))
    case _ => false
  }

  // ---------------------------------------------------------------------------
  // What the predicates promise

  /** `isEmpty` holds exactly for undefined, null and the empty string. */
  lemma EmptyValues(v: Value)
    ensures IsEmpty(v) <==> v == Undefined || v == Null || v == Str("")
  {
  }

  /** `isString` holds exactly for string values. */
  lemma StringValues(v: Value)
    ensures IsString(v) <==> exists s :: v == Str(s)
  {
    if IsString(v) {
      assert v == Str(v.s);
    }
  }

  /** null and arrays both pass `isObject`. */
  lemma NullAndArraysAreObjects(v: Value)
    ensures IsNull(v) ==> IsObject(v)
    ensures IsArray(v) ==> IsObject(v)
  {
  }

  /** No empty value and no string of white space only is a number. */
  lemma EmptyAndBlankAreNotNumbers(v: Value)
    requires IsEmpty(v) || (v.Str? && forall k :: 0 <= k < |v.s| ==> IsSpace(v.s[k]))
    ensures !IsNumber(v)
  {
    if v.Str? {
      BlankTrimsToEmpty(v.s);
    }
  }

  /** Every integer and every float is a number. */
  lemma IntegersAndFloatsAreNumbers(v: Value)
    ensures IsInteger(v) ==> IsNumber(v)
    ensures IsFloat(v) ==> IsNumber(v)
  {
  }

  /** An empty array, and an array of one null or undefined, convert to 0. */
  lemma BlankArraysAreZero(items: seq<Value>)
    requires items == [] || (|items| == 1 && (items[0] == Null || items[0] == Undefined))
    ensures IsNumber(Arr(items)) && NumberValue(Arr(items)) == 0.0
    ensures !IsFloat(Arr(items)) && !IsInteger(Arr(items))
  {
    BlankTrimsToEmpty("");
  }

  /** A one-element array of text converts exactly as that text does, when it is not blank. */
  lemma OneTextArrayNumber(s: string)
    requires Trim(s) != []
    ensures IsNumber(Arr([Str(s)])) <==> IsNumber(Str(s))
    ensures IsNumber(Str(s)) ==> NumberValue(Arr([Str(s)])) == NumberValue(Str(s))
    ensures IsInteger(Arr([Str(s)])) <==> IsInteger(Str(s))
  {
    assert [Str(s)][|[Str(s)]| - 1] == Str(s);
    assert ToText(Arr([Str(s)])) == Join([Str(s)], ",") == s;
  }

  lemma ShiftByTen(d: int, p: int)
    ensures d * (10 * p) == (d * p) * 10
  {
  }

  lemma AppendDigit(acc: int, d: int, p: int)
    ensures (acc * 10 + d) * p == acc * (10 * p) + d * p
  {
  }

  /** Digits read front to back denote the same number as read back to front. */
  lemma {:induction false} DigitsValueFront(u: string)
    requires u != [] && AllDigits(u)
    ensures DigitsValue(u) == ((u[0] as int) - ('0' as int)) * Pow10(|u| - 1) + DigitsValue(u[1..])
    decreases |u|
  {
    var n := |u|;
    var d := (u[0] as int) - ('0' as int);
    if n > 1 {
      var init, rest := u[..n - 1], u[1..];
      DigitsValueFront(init);
      assert init[0] == u[0];
      assert init[1..] == rest[..n - 2];
      assert rest[n - 2] == u[n - 1];
      assert DigitsValue(rest) == DigitsValue(init[1..]) * 10 + ((u[n - 1] as int) - ('0' as int));
      assert Pow10(n - 1) == 10 * Pow10(n - 2);
      ShiftByTen(d, Pow10(n - 2));
    } else {
      assert u[..0] == [] && u[1..] == [];
    }
  }

  /** The digit scanner reads all of a digit string and gives the number it denotes. */
  lemma {:induction false} DigitRunReadsAll(u: string, acc: nat)
    requires AllDigits(u)
    ensures DigitRun(u, acc) == (|u|, acc * Pow10(|u|) + DigitsValue(u))
    decreases |u|
  {
    if u != [] {
      var d := (u[0] as int) - ('0' as int);
      var p := Pow10(|u| - 1);
      DigitRunReadsAll(u[1..], acc * 10 + d);
      DigitsValueFront(u);
      assert Pow10(|u|) == 10 * p;
      AppendDigit(acc, d, p);
    }
  }

  /** A one-element array of a natural number converts to that number, an integer: `Number([5])` is 5. */
  lemma NatArrayNumber(n: nat)
    ensures IsNumber(Arr([Num(n as real)])) && NumberValue(Arr([Num(n as real)])) == n as real
    ensures IsInteger(Arr([Num(n as real)]))
  {
    var v := Arr([Num(n as real)]);
    var t := NatText(n);
    assert (n as real).Floor == n;
    assert UnsignedText(n as real) == t + "" && t + "" == t;
    assert NumberText(n as real) == t;
    assert [Num(n as real)][|[Num(n as real)]| - 1] == Num(n as real);
    assert Join([Num(n as real)], ",") == t;
    assert ToText(v) == t;
    assert IsDigit(t[0]) && IsDigit(t[|t| - 1]);
    TrimUnpadded(t);
    DigitRunReadsAll(t, 0);
    NatTextRoundTrip(n);
    assert ParseDecimal(t) == Some(Decimal(false, n, |t|, 0, 0));
  }

  /** An array of two or more items is never a number: its text holds a comma. */
  lemma ManyItemsNotNumber(items: seq<Value>)
    requires |items| >= 2
    ensures !IsNumber(Arr(items))
  {
    var t := ToText(Arr(items));
    var last := items[|items| - 1];
    var lastText := if last.Null? || last.Undefined? then "" else ToText(last);
    var k := |Join(items[..|items| - 1], ",")|;
    assert t == Join(items, ",");
    assert t == Join(items[..|items| - 1], ",") + "," + lastText;
    assert t[k] == ',';
    NonNumericTextNotNumber(t, k);
    TrimDropsSpaces(t);
    TrimIsSlice(t);
  }
}
