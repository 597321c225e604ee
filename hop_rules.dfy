/**
 * The validation rules of lib/hop/rules.js. Each rule either hands back a
 * (possibly transformed) value or throws an `Error` whose message is the
 * `Err` string. Rules built from an argument (`min`, `max`, `valid`,
 * `invalid`, `getDefault`) are values of the `Rule` datatype, checked when
 * they are built; `Apply` runs any rule on `(data, field, flags)`.
 */
module HopRules {
  import opened Json
  import opened Wrappers
  import opened HopUtils

  /** The `flags` option of a rule; only `optional` is ever read. */
  datatype Flags = Flags(optional: bool)

  /** The `field` option: the field name, `None` when it is not given. */
  type Field = Option<string>

  datatype Rule =
    | RequiredRule
    | StringRule
    | IntegerRule
    | NumberRule
    | MinRule(minVal: real)
    | MaxRule(maxVal: real)
    | EmailRule
    | TrimRule
    | ValidRule(vals: seq<Value>)
    | InvalidRule(vals: seq<Value>)
    | DefaultRule(defaultVal: Value)

  /** `field ? ... : ...`: a field name counts only when it is a non-empty string. */
  predicate Named(field: Field) {
    field.Some? && field.value != ""
  }

  /** How a message names its subject: `"<field>"`, or the word `field`. */
  function Subject(field: Field): string {
    if Named(field) then "\"" + field.value + "\"" else "field"
  }

  /** `isOptional(flags)(data)` */
  predicate IsOptional(flags: Flags, data: Value) {
    flags.optional && IsUndefined(data)
  }

  /** A character JavaScript stores as a surrogate pair: one outside the basic multilingual plane. */
  predicate Astral(c: char) {
    c as int >= 0x1_0000
  }

  /** The length JavaScript gives a string: its UTF-16 code units, two for an astral character. */
  function Utf16Length(s: string): (n: nat)
    ensures |s| <= n <= 2 * |s|
  {
    if s == [] then 0 else (if Astral(s[0]) then 2 else 1) + Utf16Length(s[1..])
  }

  /** Without astral characters the UTF-16 length is the number of characters. */
  lemma {:induction false} PlaneZeroLength(s: string)
    requires forall k :: 0 <= k < |s| ==> !Astral(s[k])
    ensures Utf16Length(s) == |s|
  {
    if s != [] {
      PlaneZeroLength(s[1..]);
    }
  }

  /** Every astral character adds one unit to the length. */
  lemma AstralCharLength(c: char)
    requires Astral(c)
    ensures Utf16Length([c]) == 2
  {
    assert [c][1..] == [];
  }

  /** `data.length`, for the values that have one. */
  function Length(v: Value): Option<nat> {
    match v
    case Str(s) => Some(Utf16Length(s))
    case Arr(items) => Some(|items|)
    case _ => None
  }

  // ---------------------------------------------------------------------------
  // Rules without arguments

  /** `required`: rejects undefined, null and '' and passes everything else unchanged. */
  function Required(data: Value, field: Field): (r: Result<Value, string>)
    ensures r.Ok? <==> data != Undefined && data != Null && data != Str("")
    ensures r.Ok? ==> r.value == data
    ensures r.Err? ==> r.error == Subject(field) + " is required"
  {
    if IsEmpty(data) then Err(Subject(field) + " is required") else Ok(data)
  }

  /** `validateAsString`: a string, or undefined when the field is optional. */
  function ValidateAsString(data: Value, field: Field, flags: Flags): (r: Result<Value, string>)
    ensures r.Ok? <==> data.Str? || (flags.optional && data == Undefined)
    ensures r.Ok? ==> r.value == data
    ensures r.Err? ==> r.error == Subject(field) + " must be a string"
  {
    if IsOptional(flags, data) || IsString(data) then Ok(data)
    else Err(Subject(field) + " must be a string")
  }

  /** `validateAsInt`: an integer comes back as the number `parseInt` reads. */
  function ValidateAsInt(data: Value, field: Field, flags: Flags): (r: Result<Value, string>)
    ensures r.Ok? <==> IsOptional(flags, data) || IsInteger(data)
    ensures r.Ok? && !IsOptional(flags, data) ==> r.value == Num(NumberValue(data)) && IsWhole(r.value.n)
    ensures r.Err? ==> r.error == Subject(field) + " must be an integer"
  {
    if IsOptional(flags, data) then Ok(data)
    else if IsInteger(data) then Ok(Num(NumberValue(data)))
    else Err(Subject(field) + " must be an integer")
  }

  /** `validateAsNumber`: a number comes back as `Number(data)`. */
  function ValidateAsNumber(data: Value, field: Field, flags: Flags): (r: Result<Value, string>)
    ensures r.Ok? <==> IsOptional(flags, data) || IsNumber(data)
    ensures r.Ok? && !IsOptional(flags, data) ==> r.value == Num(NumberValue(data))
    ensures r.Err? ==> r.error == Subject(field) + " must be a number"
  {
    if IsOptional(flags, data) then Ok(data)
    else if IsNumber(data) then Ok(Num(NumberValue(data)))
    else Err(Subject(field) + " must be a number")
  }

  // ---------------------------------------------------------------------------
  // min and max

  function ValidateMinStrLength(minLen: real, data: Value, field: Field, flags: Flags): Result<Value, string> {
    var hasRequiredLength := !IsEmpty(data) && Length(data).Some? && Length(data).value as real >= minLen;
    if IsOptional(flags, data) || hasRequiredLength then Ok(data)
    else Err(Subject(field) + " must have at least " + NumberText(minLen) + " characters")
  }

  function ValidateNumberMin(minVal: real, data: Value, field: Field, flags: Flags): Result<Value, string> {
    var isGreaterOrEqualToMin := IsNumber(data) && NumberValue(data) >= minVal;
    if IsOptional(flags, data) || isGreaterOrEqualToMin then Ok(data)
    else Err(Subject(field) + " must be greater than or equal to " + NumberText(minVal))
  }

  /**
   * The rule `min(minVal)` builds: a number must be at least `minVal`, any
   * other non-empty value must have a length of at least `minVal`.
   */
  function CheckMin(minVal: real, data: Value, field: Field, flags: Flags): (r: Result<Value, string>)
    ensures r.Ok? ==> r.value == data
    ensures r.Ok? <==>
      || IsOptional(flags, data)
      || (IsNumber(data) && NumberValue(data) >= minVal)
      || (!IsNumber(data) && !IsEmpty(data) && Length(data).Some? && Length(data).value as real >= minVal)
    ensures r.Err? && IsNumber(data) ==> r.error == Subject(field) + " must be greater than or equal to " + NumberText(minVal)
    ensures r.Err? && !IsNumber(data) ==> r.error == Subject(field) + " must have at least " + NumberText(minVal) + " characters"
  {
    if IsNumber(data) then ValidateNumberMin(minVal, data, field, flags)
    else ValidateMinStrLength(minVal, data, field, flags)
  }

  function ValidateMaxStrLength(maxLen: real, data: Value, field: Field, flags: Flags): Result<Value, string> {
    var hasRequiredLength := !IsEmpty(data) && Length(data).Some? && Length(data).value as real <= maxLen;
    if IsOptional(flags, data) || hasRequiredLength then Ok(data)
    else Err(Subject(field) + " must have at most " + NumberText(maxLen) + " characters")
  }

  function ValidateNumberMax(maxVal: real, data: Value, field: Field, flags: Flags): Result<Value, string> {
    var isLessOrEqualToMax := IsNumber(data) && NumberValue(data) <= maxVal;
    if IsOptional(flags, data) || isLessOrEqualToMax then Ok(data)
    else Err(Subject(field) + " must be less than or equal to " + NumberText(maxVal))
  }

  /**
   * The rule `max(maxVal)` builds: a number must be at most `maxVal`, any
   * other non-empty value must have a length of at most `maxVal`.
   */
  function CheckMax(maxVal: real, data: Value, field: Field, flags: Flags): (r: Result<Value, string>)
    ensures r.Ok? ==> r.value == data
    ensures r.Ok? <==>
      || IsOptional(flags, data)
      || (IsNumber(data) && NumberValue(data) <= maxVal)
      || (!IsNumber(data) && !IsEmpty(data) && Length(data).Some? && Length(data).value as real <= maxVal)
    ensures r.Err? && IsNumber(data) ==> r.error == Subject(field) + " must be less than or equal to " + NumberText(maxVal)
    ensures r.Err? && !IsNumber(data) ==> r.error == Subject(field) + " must have at most " + NumberText(maxVal) + " characters"
  {
    if IsNumber(data) then ValidateNumberMax(maxVal, data, field, flags)
    else ValidateMaxStrLength(maxVal, data, field, flags)
  }

  /** A number below the bound of `min` is refused with the message naming the bound. */
  lemma NumberBelowMin(minVal: real, x: real, field: Field)
    requires x < minVal
    ensures CheckMin(minVal, Num(x), field, Flags(false)) ==
      Err(Subject(field) + " must be greater than or equal to " + NumberText(minVal))
  {
  }

  /** A number above the bound of `max` is refused with the message naming the bound. */
  lemma NumberAboveMax(maxVal: real, x: real, field: Field)
    requires maxVal < x
    ensures CheckMax(maxVal, Num(x), field, Flags(false)) ==
      Err(Subject(field) + " must be less than or equal to " + NumberText(maxVal))
  {
  }

  /**
   * On text that is not numeric and not empty, `min` compares the UTF-16
   * length and otherwise names the bound in characters.
   */
  lemma TextMinLength(minVal: real, v: Value, field: Field)
    requires v.Str? && !IsNumber(v) && v.s != ""
    ensures CheckMin(minVal, v, field, Flags(false)).Ok? <==> minVal <= Utf16Length(v.s) as real
    ensures CheckMin(minVal, v, field, Flags(false)).Err? ==>
      CheckMin(minVal, v, field, Flags(false)).error == Subject(field) + " must have at least " + NumberText(minVal) + " characters"
  {
  }

  /**
   * On text that is not numeric and not empty, `max` compares the UTF-16
   * length and otherwise names the bound in characters.
   */
  lemma TextMaxLength(maxVal: real, v: Value, field: Field)
    requires v.Str? && !IsNumber(v) && v.s != ""
    ensures CheckMax(maxVal, v, field, Flags(false)).Ok? <==> Utf16Length(v.s) as real <= maxVal
    ensures CheckMax(maxVal, v, field, Flags(false)).Err? ==>
      CheckMax(maxVal, v, field, Flags(false)).error == Subject(field) + " must have at most " + NumberText(maxVal) + " characters"
  {
  }

  /** One astral character is two units long, so `max(1)` refuses it. */
  lemma AstralTextExceedsOne(c: char)
    requires Astral(c)
    ensures CheckMax(1.0, Str([c]), None, Flags(false)) == Err("field must have at most " + NumberText(1.0) + " characters")
  {
    AstralCharLength(c);
    NonNumericTextNotNumber([c], 0);
    assert Subject(None) + " must have at most " + NumberText(1.0) + " characters"
      == "field must have at most " + NumberText(1.0) + " characters";
  }

  /**
   * A one-element array of numeric text is a number to `min`, which then
   * compares its value and not its length: `min(3)` passes `['5']`.
   */
  lemma OneTextArrayMin(minVal: real, s: string, field: Field)
    requires Trim(s) != [] && IsNumber(Str(s))
    ensures CheckMin(minVal, Arr([Str(s)]), field, Flags(false)).Ok? <==> NumberValue(Str(s)) >= minVal
  {
    OneTextArrayNumber(s);
  }

  /** `min` treats a one-element array of a natural number as that number, comparing its value. */
  lemma NatArrayMin(minVal: real, n: nat, field: Field)
    ensures CheckMin(minVal, Arr([Num(n as real)]), field, Flags(false)).Ok? <==> n as real >= minVal
  {
    NatArrayNumber(n);
  }

  /** `min(3)` passes `[5]` unchanged. */
  lemma NatArrayMinExample()
    ensures CheckMin(3.0, Arr([Num(5.0)]), None, Flags(false)) == Ok(Arr([Num(5.0)]))
  {
    NatArrayMin(3.0, 5, None);
  }

  /** `min(minVal)`: refuses at construction a bound that is not numeric. */
  function Min(minVal: Value): (r: Result<Rule, string>)
    ensures r.Ok? <==> IsNumber(minVal)
    ensures r.Ok? ==> r.value == MinRule(NumberValue(minVal))
    ensures r.Err? ==> r.error == ToText(minVal) + " is not a number"
  {
    if !IsNumber(minVal) then Err(ToText(minVal) + " is not a number") else Ok(MinRule(NumberValue(minVal)))
  }

  /** `max(maxVal)`: refuses at construction a bound that is not numeric. */
  function Max(maxVal: Value): (r: Result<Rule, string>)
    ensures r.Ok? <==> IsNumber(maxVal)
    ensures r.Ok? ==> r.value == MaxRule(NumberValue(maxVal))
    ensures r.Err? ==> r.error == ToText(maxVal) + " is not a number"
  {
    if !IsNumber(maxVal) then Err(ToText(maxVal) + " is not a number") else Ok(MaxRule(NumberValue(maxVal)))
  }

  // ---------------------------------------------------------------------------
  // email

  /**
   * The local-part class of the pattern at lib/hop/rules.js:5, as written:
   * it holds the three characters U+00E2, U+20AC, U+2122 where the HTML
   * standard's pattern has an apostrophe.
   */
  predicate LocalChar(c: char) {
    || ('a' <= c <= 'z') || ('A' <= c <= 'Z') || ('0' <= c <= '9')
    || c == '.' || c == '!' || c == '#' || c == '$' || c == '%' || c == '&'
    || c == '*' || c == '+' || c == '/' || c == '=' || c == '?' || c == '^'
    || c == '_' || c == '`' || c == '{' || c == '|' || c == '}' || c == '~' || c == '-'
    || c == '\U{E2}' || c == '\U{20AC}' || c == '\U{2122}'
  }

  /** `[a-zA-Z0-9-]` */
  predicate LabelChar(c: char) {
    ('a' <= c <= 'z') || ('A' <= c <= 'Z') || ('0' <= c <= '9') || c == '-'
  }

  /** Length of the leading run of local-part characters. */
  function LocalRun(s: string): (n: nat)
    ensures n <= |s|
  {
    if s != [] && LocalChar(s[0]) then 1 + LocalRun(s[1..]) else 0
  }

  /** Length of the leading run of label characters. */
  function LabelRun(s: string): (n: nat)
    ensures n <= |s|
  {
    if s != [] && LabelChar(s[0]) then 1 + LabelRun(s[1..]) else 0
  }

  /** `[a-zA-Z0-9-]+(?:\.[a-zA-Z0-9-]+)*`: non-empty labels joined by single dots. */
  predicate Domain(d: string)
    decreases |d|
  {
    var n := LabelRun(d);
    n > 0 && (n == |d| || (d[n] == '.' && Domain(d[n + 1..])))
  }

  /**
   * The whole pattern: a non-empty run of local-part characters, `@`, a
   * domain. Neither class holds `@`, so the runs are exactly the parts.
   */
  predicate EmailAddress(s: string) {
    var n := LocalRun(s);
    0 < n < |s| && s[n] == '@' && Domain(s[n + 1..])
  }

  /** A domain starts and ends with a label character. */
  lemma {:induction false} DomainEnds(d: string)
    requires Domain(d)
    ensures LabelChar(d[0]) && LabelChar(d[|d| - 1])
    decreases |d|
  {
    var n := LabelRun(d);
    if n < |d| {
      DomainEnds(d[n + 1..]);
      assert d[|d| - 1] == d[n + 1..][|d| - n - 2];
    } else {
      LabelRunIsLabel(d);
    }
  }

  /** The label run ends just before a non-label character, its last character is one. */
  lemma {:induction false} LabelRunIsLabel(s: string)
    requires LabelRun(s) > 0
    ensures LabelChar(s[LabelRun(s) - 1])
  {
    if LabelRun(s) > 1 {
      LabelRunIsLabel(s[1..]);
    }
  }

  /**
   * `regex.test(data)` converts `data` with `String`; besides strings only a
   * one-element array can turn into an address (every other value's text
   * has no `@`, or a `,` that neither part allows).
   */
  predicate MatchesEmail(v: Value) {
    match v
    case Str(s) => EmailAddress(s)
    case Arr(items) => |items| == 1 && MatchesEmail(items[0])
    case _ => false
  }

  /** An address starts and ends with a character that is not white space. */
  lemma AddressEnds(t: string)
    requires EmailAddress(t)
    ensures !IsSpace(t[0]) && !IsSpace(t[|t| - 1])
  {
    var d := t[LocalRun(t) + 1..];
    DomainEnds(d);
    assert t[|t| - 1] == d[|d| - 1];
  }

  /** An address has no white space to trim. */
  lemma AddressIsTrimmed(t: string)
    requires EmailAddress(t)
    ensures Trim(t) == t
  {
    AddressEnds(t);
    TrimUnpadded(t);
  }

  /** An address is never numeric text: its `@` is not a character of a number. */
  lemma AddressIsNotNumber(t: string)
    requires EmailAddress(t)
    ensures !IsNumber(Str(t))
  {
    NonNumericTextNotNumber(t, LocalRun(t));
  }

  /** The characters of a local run are local-part characters. */
  lemma {:induction false} LocalRunChars(s: string)
    ensures forall k :: 0 <= k < LocalRun(s) ==> LocalChar(s[k])
  {
    if s != [] && LocalChar(s[0]) {
      LocalRunChars(s[1..]);
      forall k | 1 <= k < LocalRun(s) ensures LocalChar(s[k]) {
        assert s[k] == s[1..][k - 1];
      }
    }
  }

  /** The characters of a label run are label characters. */
  lemma {:induction false} LabelRunChars(s: string)
    ensures forall k :: 0 <= k < LabelRun(s) ==> LabelChar(s[k])
  {
    if s != [] && LabelChar(s[0]) {
      LabelRunChars(s[1..]);
      forall k | 1 <= k < LabelRun(s) ensures LabelChar(s[k]) {
        assert s[k] == s[1..][k - 1];
      }
    }
  }

  /** A domain holds only label characters and dots. */
  lemma {:induction false} DomainChars(d: string)
    requires Domain(d)
    ensures forall k :: 0 <= k < |d| ==> LabelChar(d[k]) || d[k] == '.'
    decreases |d|
  {
    var n := LabelRun(d);
    LabelRunChars(d);
    if n < |d| {
      DomainChars(d[n + 1..]);
      forall k | n + 1 <= k < |d| ensures LabelChar(d[k]) || d[k] == '.' {
        assert d[k] == d[n + 1..][k - n - 1];
      }
    }
  }

  /** An address has no astral character, so its JavaScript length is its character count. */
  lemma AddressLength(t: string)
    requires EmailAddress(t)
    ensures Utf16Length(t) == |t|
  {
    var n := LocalRun(t);
    var d := t[n + 1..];
    LocalRunChars(t);
    DomainChars(d);
    forall k | 0 <= k < |t| ensures !Astral(t[k]) {
      if n < k {
        assert t[k] == d[k - n - 1];
      }
    }
    PlaneZeroLength(t);
  }

  /** `email`: passes a value that matches the address pattern, unchanged. */
  function Email(data: Value, field: Field, flags: Flags): (r: Result<Value, string>)
    ensures r.Ok? <==> IsOptional(flags, data) || MatchesEmail(data)
    ensures r.Ok? ==> r.value == data
    ensures r.Err? && Named(field) ==> r.error == "\"" + ToText(data) + "\" is not a valid email address"
    ensures r.Err? && !Named(field) ==> r.error == "field is not a valid email address"
  {
    if IsOptional(flags, data) || MatchesEmail(data) then Ok(data)
    else if Named(field) then Err("\"" + ToText(data) + "\" is not a valid email address")
    else Err("field is not a valid email address")
  }

  // ---------------------------------------------------------------------------
  // trim, valid, invalid, getDefault

  /** `trim`: strips a string's surrounding white space; never throws. */
  function TrimValue(data: Value): (r: Value)
    ensures data.Str? ==> r.Str? && r.s == Trim(data.s)
    ensures !data.Str? ==> r == data
  {
    if IsString(data) then Str(Trim(data.s)) else data
  }

  /** `valid(vals)`: refuses at construction an argument that is not an array. */
  function Valid(vals: Value): (r: Result<Rule, string>)
    ensures r.Ok? <==> vals.Arr?
    ensures r.Ok? ==> r.value == ValidRule(vals.items)
  {
    if !IsArray(vals) then Err("Argument must be an array") else Ok(ValidRule(vals.items))
  }

  /** `invalid(vals)`: refuses at construction an argument that is not an array. */
  function Invalid(vals: Value): (r: Result<Rule, string>)
    ensures r.Ok? <==> vals.Arr?
    ensures r.Ok? ==> r.value == InvalidRule(vals.items)
  {
    if !IsArray(vals) then Err("Argument must be an array") else Ok(InvalidRule(vals.items))
  }

  /** The rule `valid(vals)` builds: `vals.includes(data)`. */
  function CheckValid(vals: seq<Value>, data: Value, field: Field, flags: Flags): (r: Result<Value, string>)
    ensures r.Ok? <==> IsOptional(flags, data) || data in vals
    ensures r.Ok? ==> r.value == data
    ensures r.Err? ==> r.error == Subject(field) + " must be one of [" + Join(vals, ",") + "]"
  {
    if IsOptional(flags, data) || data in vals then Ok(data)
    else Err(Subject(field) + " must be one of [" + Join(vals, ",") + "]")
  }

  /** The rule `invalid(vals)` builds: `!vals.includes(data)`; it ignores `flags`. */
  function CheckInvalid(vals: seq<Value>, data: Value, field: Field): (r: Result<Value, string>)
    ensures r.Ok? <==> data !in vals
    ensures r.Ok? ==> r.value == data
    ensures r.Err? ==> r.error == Subject(field) + " must not be one of [" + Join(vals, ",") + "]"
  {
    if data !in vals then Ok(data)
    else Err(Subject(field) + " must not be one of [" + Join(vals, ",") + "]")
  }

  /** The rule `getDefault(defaultVal)` builds: `data || defaultVal`. */
  function GetDefault(defaultVal: Value, data: Value): (r: Value)
    ensures Truthy(data) ==> r == data
    ensures !Truthy(data) ==> r == defaultVal
  {
    if Truthy(data) then data else defaultVal
  }

  // ---------------------------------------------------------------------------

  /** Runs one rule; `trim` and `default` never throw. */
  function Apply(rule: Rule, data: Value, field: Field, flags: Flags): (r: Result<Value, string>)
    ensures rule.TrimRule? || rule.DefaultRule? ==> r.Ok?
  {
    match rule
    case RequiredRule => Required(data, field)
    case StringRule => ValidateAsString(data, field, flags)
    case IntegerRule => ValidateAsInt(data, field, flags)
    case NumberRule => ValidateAsNumber(data, field, flags)
    case MinRule(minVal) => CheckMin(minVal, data, field, flags)
    case MaxRule(maxVal) => CheckMax(maxVal, data, field, flags)
    case EmailRule => Email(data, field, flags)
    case TrimRule => Ok(TrimValue(data))
    case ValidRule(vals) => CheckValid(vals, data, field, flags)
    case InvalidRule(vals) => CheckInvalid(vals, data, field)
    case DefaultRule(defaultVal) => Ok(GetDefault(defaultVal, data))
  }

  /** `getDefault` also replaces the falsy values 0, false and ''. */
  lemma DefaultReplacesFalsy(d: Value)
    ensures GetDefault(d, Num(0.0)) == d && GetDefault(d, Bool(false)) == d && GetDefault(d, Str("")) == d
    ensures GetDefault(d, Undefined) == d && GetDefault(d, Null) == d
  {
  }

  /** Examples for `required`: the message names the field when there is one. */
  lemma RequiredExamples()
    ensures Required(Undefined, None) == Err("field is required")
    ensures Required(Str(""), Some("name")) == Err("\"name\" is required")
    ensures Required(Str("something"), None) == Ok(Str("something"))
  {
    assert Subject(None) + " is required" == "field is required";
    assert Subject(Some("name")) + " is required" == "\"name\" is required";
  }

  /** Example for `trim`. */
  lemma TrimExample()
    ensures TrimValue(Str(" something ")) == Str("something")
  {
    TrimPadded("something");
    assert " something " == " " + "something" + " ";
  }

  /** The local run of a run of local-part characters followed by anything else is that run. */
  lemma {:induction false} LocalRunStops(a: string, b: string)
    requires forall k :: 0 <= k < |a| ==> LocalChar(a[k])
    requires b == [] || !LocalChar(b[0])
    ensures LocalRun(a + b) == |a|
  {
    if a == [] {
      assert a + b == b;
    } else {
      assert (a + b)[1..] == a[1..] + b;
      LocalRunStops(a[1..], b);
    }
  }

  /** The label run of a run of label characters followed by anything else is that run. */
  lemma {:induction false} LabelRunStops(a: string, b: string)
    requires forall k :: 0 <= k < |a| ==> LabelChar(a[k])
    requires b == [] || !LabelChar(b[0])
    ensures LabelRun(a + b) == |a|
  {
    if a == [] {
      assert a + b == b;
    } else {
      assert (a + b)[1..] == a[1..] + b;
      LabelRunStops(a[1..], b);
    }
  }

  /** A single non-empty label is a domain. */
  lemma DomainOfLabel(a: string)
    requires a != [] && forall k :: 0 <= k < |a| ==> LabelChar(a[k])
    ensures Domain(a)
  {
    LabelRunStops(a, []);
    assert a + [] == a;
  }

  /** A non-empty label, a dot and a domain make a domain. */
  lemma DomainOfLabels(a: string, d: string)
    requires a != [] && forall k :: 0 <= k < |a| ==> LabelChar(a[k])
    requires Domain(d)
    ensures Domain(a + "." + d)
  {
    LabelRunStops(a, "." + d);
    assert a + "." + d == a + ("." + d);
    assert (a + "." + d)[|a| + 1..] == d;
  }

  /** A non-empty local part, `@` and a domain make an address. */
  lemma AddressOfParts(l: string, d: string)
    requires l != [] && forall k :: 0 <= k < |l| ==> LocalChar(l[k])
    requires Domain(d)
    ensures EmailAddress(l + "@" + d)
  {
    LocalRunStops(l, "@" + d);
    assert l + "@" + d == l + ("@" + d);
    assert (l + "@" + d)[|l| + 1..] == d;
  }

  /** The pieces of the sample address. */
  lemma SamplePieces()
    ensures "mail.com" == "mail" + "." + "com"
    ensures "some@mail.com" == "some" + "@" + "mail.com"
    ensures forall k :: 0 <= k < 4 ==> LabelChar("mail"[k])
    ensures forall k :: 0 <= k < 3 ==> LabelChar("com"[k])
    ensures forall k :: 0 <= k < 4 ==> LocalChar("some"[k])
  {
  }

  /** `mail.com` is a domain. */
  lemma SampleDomain()
    ensures Domain("mail.com")
  {
    SamplePieces();
    DomainOfLabel("com");
    DomainOfLabels("mail", "com");
  }

  /** `some@mail.com` is an address. */
  lemma SampleIsAddress()
    ensures EmailAddress("some@mail.com")
  {
    SamplePieces();
    SampleDomain();
    AddressOfParts("some", "mail.com");
  }

  /** Text without `@` is not an address: the local run covers all of it. */
  lemma MissingAtIsNoAddress()
    ensures !EmailAddress("some.com")
  {
    MissingAtPieces();
    LocalRunStops("some.com", "");
  }

  lemma MissingAtPieces()
    ensures "some.com" + "" == "some.com"
    ensures forall k :: 0 <= k < 8 ==> LocalChar("some.com"[k])
  {
  }

  /** On an unnamed required field, `email` passes an address and otherwise throws the fixed message. */
  lemma EmailOnText(t: string)
    ensures EmailAddress(t) ==> Email(Str(t), None, Flags(false)) == Ok(Str(t))
    ensures !EmailAddress(t) ==> Email(Str(t), None, Flags(false)) == Err("field is not a valid email address")
  {
  }

  /** Examples for `email`: an address passes unchanged, text without `@` does not. */
  lemma EmailExamples()
    ensures Email(Str("some@mail.com"), None, Flags(false)) == Ok(Str("some@mail.com"))
    ensures Email(Str("some.com"), None, Flags(false)) == Err("field is not a valid email address")
  {
    SampleIsAddress();
    EmailOnText("some@mail.com");
    MissingAtIsNoAddress();
    EmailOnText("some.com");
  }

  /** The pieces of `a@b..com`. */
  lemma EmptyLabelPieces()
    ensures "a@b..com" == "a" + "@b..com" && "a@b..com"[2..] == "b..com"
    ensures LocalChar("a"[0]) && !LocalChar("@b..com"[0])
    ensures "b..com" == "b" + "..com" && "b..com"[1] == '.' && "b..com"[2..] == ".com"
    ensures LabelChar("b"[0]) && !LabelChar("..com"[0]) && !LabelChar(".com"[0])
  {
  }

  /** A domain with an empty label between two dots is not a domain. */
  lemma EmptyLabelIsNoDomain()
    ensures !Domain("b..com")
  {
    EmptyLabelPieces();
    LabelRunStops("b", "..com");
    LabelRunStops("", ".com");
    assert "" + ".com" == ".com";
  }

  /** An address whose domain has an empty label is rejected. */
  lemma EmailRejectsEmptyLabel()
    ensures Email(Str("a@b..com"), None, Flags(false)).Err?
  {
    EmptyLabelPieces();
    EmptyLabelIsNoDomain();
    LocalRunStops("a", "@b..com");
  }

  /** Examples for `valid` and `invalid`. */
  lemma MembershipExamples()
    ensures CheckValid([Str("john"), Str("jane")], Str("jane"), None, Flags(false)) == Ok(Str("jane"))
    ensures CheckValid([Str("john"), Str("jane")], Str("doe"), None, Flags(false)) == Err("field must be one of [john,jane]")
    ensures CheckInvalid([Str("john"), Str("jane")], Str("john"), None) == Err("field must not be one of [john,jane]")
    ensures CheckInvalid([Str("john"), Str("jane")], Str("doe"), None) == Ok(Str("doe"))
    ensures Valid(Str("john")) == Err("Argument must be an array")
  {
    NamesJoined();
    MembershipPieces();
  }

  /** The messages of the membership examples, piece by piece. */
  lemma MembershipPieces()
    ensures Subject(None) + " must be one of [" + "john,jane" + "]" == "field must be one of [john,jane]"
    ensures Subject(None) + " must not be one of [" + "john,jane" + "]" == "field must not be one of [john,jane]"
  {
    assert Subject(None) == "field";
    ValidMessagePiece();
    InvalidMessagePiece();
  }

  lemma ValidMessagePiece()
    ensures "field" + " must be one of [" + "john,jane" + "]" == "field must be one of [john,jane]"
  {
  }

  lemma InvalidMessagePiece()
    ensures "field" + " must not be one of [" + "john,jane" + "]" == "field must not be one of [john,jane]"
  {
  }

  /** `['john', 'jane'].join(',')` */
  lemma NamesJoined()
    ensures Join([Str("john"), Str("jane")], ",") == "john,jane"
  {
    assert [Str("john"), Str("jane")][..1] == [Str("john")];
  }
}
