/**
 * The hop type builders of lib/hop/types: a type holds an ordered list of
 * named rules; builder methods edit that list in place and return the same
 * object so calls chain, and `Validate` folds data through the list.
 */
module HopTypes {
  import opened Json
  import opened Wrappers
  import opened HopUtils
  import opened HopRules

  /** Which builder made the type: `baseType`, `stringType` or `numberType`. */
  datatype Kind = BaseKind | StringKind | NumberKind

  /** An entry `{name, cb}` of the rule list. */
  datatype Test = Test(name: string, rule: Rule)

  /** The object `validate` returns: `{original, data, field}`. */
  datatype Output = Output(original: Value, data: Value, field: Field)

  /** `tests.findIndex(test => test.name === name)` */
  function FindIndex(tests: seq<Test>, name: string): (i: int)
    ensures -1 <= i < |tests|
    ensures i == -1 <==> forall k :: 0 <= k < |tests| ==> tests[k].name != name
    ensures 0 <= i ==> tests[i].name == name && forall k :: 0 <= k < i ==> tests[k].name != name
  {
    if tests == [] then -1
    else if tests[0].name == name then 0
    else
      var i := FindIndex(tests[1..], name);
      if i < 0 then -1 else i + 1
  }

  /**
   * The reduce at lib/hop/types/base.js:45-47: each rule's output feeds the
   * next rule, and the first rule that throws ends the run with its error.
   */
  function Run(tests: seq<Test>, data: Value, field: Field): Result<Value, string>
    decreases |tests|
  {
    if tests == [] then Ok(data)
    else
      match Apply(tests[0].rule, data, field, Flags(false))
      case Err(e) => Err(e)
      case Ok(v) => Run(tests[1..], v, field)
  }

  /** Running two lists one after the other is running their concatenation. */
  lemma {:induction false} RunAppend(a: seq<Test>, b: seq<Test>, data: Value, field: Field)
    ensures Run(a + b, data, field) ==
      match Run(a, data, field)
      case Err(e) => Err(e)
      case Ok(v) => Run(b, v, field)
    decreases |a|
  {
    if a == [] {
      assert a + b == b;
    } else {
      assert (a + b)[1..] == a[1..] + b;
      match Apply(a[0].rule, data, field, Flags(false))
      case Err(e) =>
      case Ok(v) => RunAppend(a[1..], b, v, field);
    }
  }

  /** A list that ends with `required` never yields undefined, null or ''. */
  lemma RequiredLastYieldsNonEmpty(tests: seq<Test>, data: Value, field: Field)
    ensures var r := Run(tests + [Test("required", RequiredRule)], data, field);
      r.Ok? ==> !IsEmpty(r.value)
  {
    RunAppend(tests, [Test("required", RequiredRule)], data, field);
  }

  /** A rule that throws in the middle of a list makes the whole run throw its message. */
  lemma ErrorEscapes(a: seq<Test>, t: Test, b: seq<Test>, data: Value, field: Field)
    requires Run(a, data, field).Ok?
    requires Apply(t.rule, Run(a, data, field).value, field, Flags(false)).Err?
    ensures Run(a + [t] + b, data, field) == Err(Apply(t.rule, Run(a, data, field).value, field, Flags(false)).error)
  {
    RunAppend(a + [t], b, data, field);
    RunAppend(a, [t], data, field);
  }

  /** A `default` rule at the head turns missing data into the default before any other rule. */
  lemma DefaultRunsFirst(d: Value, tests: seq<Test>, field: Field)
    ensures Run([Test("default", DefaultRule(d))] + tests, Undefined, field) == Run(tests, d, field)
  {
    assert ([Test("default", DefaultRule(d))] + tests)[1..] == tests;
  }

  /** A `trim` rule at the head means every later rule sees the trimmed string. */
  lemma TrimRunsFirst(s: string, tests: seq<Test>, field: Field)
    ensures Run([Test("trim", TrimRule)] + tests, Str(s), field) == Run(tests, Str(Trim(s)), field)
  {
    assert ([Test("trim", TrimRule)] + tests)[1..] == tests;
  }

  class HopType {
    /** The rule list, run first to last. */
    var tests: seq<Test>
    const kind: Kind

    /** `baseType()`: no rules yet. */
    constructor Base()
      ensures kind == BaseKind && tests == []
    {
      kind := BaseKind;
      tests := [];
    }

    /** `stringType()`: the base list followed by one `string` rule. */
    constructor StringType()
      ensures kind == StringKind && tests == [Test("string", StringRule)]
    {
      kind := StringKind;
      tests := [Test("string", StringRule)];
    }

    /** `numberType()`: the base list followed by one `number` rule. */
    constructor NumberType()
      ensures kind == NumberKind && tests == [Test("number", NumberRule)]
    {
      kind := NumberKind;
      tests := [Test("number", NumberRule)];
    }

    /** `required()`: drops the first rule named `optional`, if any, and appends `required`. */
    method Required() returns (self: HopType)
      modifies this
      ensures self == this
      ensures var i := FindIndex(old(tests), "optional");
        tests == (if i < 0 then old(tests) else old(tests)[..i] + old(tests)[i + 1..]) + [Test("required", RequiredRule)]
    {
      var ind := FindIndex(tests, "optional");
      if ind >= 0 {
        tests := tests[..ind] + tests[ind + 1..];
      }
      tests := tests + [Test("required", RequiredRule)];
      self := this;
    }

    /** `default(val)`: prepends a `default` rule. */
    method Default(val: Value) returns (self: HopType)
      modifies this
      ensures self == this
      ensures tests == [Test("default", DefaultRule(val))] + old(tests)
    {
      tests := [Test("default", DefaultRule(val))] + tests;
      self := this;
    }

    /** `allowed(values)`: appends an `allowed` rule; a non-array argument throws and changes nothing. */
    method Allowed(values: Value) returns (r: Result<HopType, string>)
      modifies this
      ensures values.Arr? ==> r == Ok(this) && tests == old(tests) + [Test("allowed", ValidRule(values.items))]
      ensures !values.Arr? ==> r == Err("Argument must be an array") && tests == old(tests)
    {
      var rule := Valid(values);
      if rule.Err? {
        return Err(rule.error);
      }
      tests := tests + [Test("allowed", rule.value)];
      r := Ok(this);
    }

    /** `disallowed(values)`: appends a `disallowed` rule; a non-array argument throws and changes nothing. */
    method Disallowed(values: Value) returns (r: Result<HopType, string>)
      modifies this
      ensures values.Arr? ==> r == Ok(this) && tests == old(tests) + [Test("disallowed", InvalidRule(values.items))]
      ensures !values.Arr? ==> r == Err("Argument must be an array") && tests == old(tests)
    {
      var rule := Invalid(values);
      if rule.Err? {
        return Err(rule.error);
      }
      tests := tests + [Test("disallowed", rule.value)];
      r := Ok(this);
    }

    /** `min(minVal)` of the string and number types: appends a `min` rule. */
    method Min(minVal: Value) returns (r: Result<HopType, string>)
      requires kind != BaseKind
      modifies this
      ensures IsNumber(minVal) ==> r == Ok(this) && tests == old(tests) + [Test("min", MinRule(NumberValue(minVal)))]
      ensures !IsNumber(minVal) ==> r == Err(ToText(minVal) + " is not a number") && tests == old(tests)
    {
      var rule := HopRules.Min(minVal);
      if rule.Err? {
        return Err(rule.error);
      }
      tests := tests + [Test("min", rule.value)];
      r := Ok(this);
    }

    /** `max(maxVal)` of the string and number types: appends a `max` rule. */
    method Max(maxVal: Value) returns (r: Result<HopType, string>)
      requires kind != BaseKind
      modifies this
      ensures IsNumber(maxVal) ==> r == Ok(this) && tests == old(tests) + [Test("max", MaxRule(NumberValue(maxVal)))]
      ensures !IsNumber(maxVal) ==> r == Err(ToText(maxVal) + " is not a number") && tests == old(tests)
    {
      var rule := HopRules.Max(maxVal);
      if rule.Err? {
        return Err(rule.error);
      }
      tests := tests + [Test("max", rule.value)];
      r := Ok(this);
    }

    /** `email()` of the string type: appends an `email` rule. */
    method Email() returns (self: HopType)
      requires kind == StringKind
      modifies this
      ensures self == this
      ensures tests == old(tests) + [Test("email", EmailRule)]
    {
      tests := tests + [Test("email", EmailRule)];
      self := this;
    }

    /** `trim()` of the string type: prepends a `trim` rule. */
    method Trim() returns (self: HopType)
      requires kind == StringKind
      modifies this
      ensures self == this
      ensures tests == [Test("trim", TrimRule)] + old(tests)
    {
      tests := [Test("trim", TrimRule)] + tests;
      self := this;
    }

    /** `integer()` of the number type: appends an `integer` rule. */
    method Integer() returns (self: HopType)
      requires kind == NumberKind
      modifies this
      ensures self == this
      ensures tests == old(tests) + [Test("integer", IntegerRule)]
    {
      tests := tests + [Test("integer", IntegerRule)];
      self := this;
    }

    /** `int()`: the same as `integer()`. */
    method Int() returns (self: HopType)
      requires kind == NumberKind
      modifies this
      ensures self == this
      ensures tests == old(tests) + [Test("integer", IntegerRule)]
    {
      self := Integer();
    }

    /**
     * `validate(data, field)`: on success, the original input, the output of
     * the last rule and the field; otherwise the first rule error.
     */
    function Validate(data: Value, field: Field): (r: Result<Output, string>)
      reads this
      ensures r.Ok? <==> Run(tests, data, field).Ok?
      ensures r.Ok? ==> r.value == Output(data, Run(tests, data, field).value, field)
      ensures r.Err? ==> r.error == Run(tests, data, field).error
    {
      match Run(tests, data, field)
      case Err(e) => Err(e)
      case Ok(v) => Ok(Output(data, v, field))
    }
  }

  // ---------------------------------------------------------------------------
  // The chains of lib/hop/types/string.test.js and number.test.js

  /** The rule list `stringType().min(lo).max(hi).trim().email().required()` builds. */
  function AddressChain(lo: real, hi: real): seq<Test> {
    [Test("trim", TrimRule), Test("string", StringRule), Test("min", MinRule(lo)), Test("max", MaxRule(hi)),
     Test("email", EmailRule), Test("required", RequiredRule)]
  }

  /** Running a list with a head rule: the head's error, or the rest run on the head's output. */
  lemma RunHead(t: Test, ts: seq<Test>, v: Value)
    ensures Apply(t.rule, v, None, Flags(false)).Err? ==>
      Run([t] + ts, v, None) == Err(Apply(t.rule, v, None, Flags(false)).error)
    ensures Apply(t.rule, v, None, Flags(false)).Ok? ==>
      Run([t] + ts, v, None) == Run(ts, Apply(t.rule, v, None, Flags(false)).value, None)
  {
    assert ([t] + ts)[1..] == ts;
  }

  /** `trim` then `string`: a string comes out trimmed, anything else is refused. */
  lemma TrimThenString(v: Value)
    ensures v.Str? ==> Run([Test("trim", TrimRule), Test("string", StringRule)], v, None) == Ok(Str(Trim(v.s)))
    ensures !v.Str? ==> Run([Test("trim", TrimRule), Test("string", StringRule)], v, None).Err?
  {
    var t1, t2 := Test("trim", TrimRule), Test("string", StringRule);
    assert [t1, t2] == [t1] + [t2];
    RunHead(t1, [t2], v);
    RunHead(t2, [], TrimValue(v));
    StringRuleOnValue(TrimValue(v));
  }

  /** The `string` rule passes text unchanged and refuses anything else. */
  lemma StringRuleOnValue(w: Value)
    ensures w.Str? ==> Apply(StringRule, w, None, Flags(false)) == Ok(w)
    ensures !w.Str? ==> Apply(StringRule, w, None, Flags(false)).Err?
  {
  }

  /** On text, the `email` rule passes exactly the addresses, unchanged. */
  lemma EmailRuleOnText(v: Value)
    requires v.Str?
    ensures Apply(EmailRule, v, None, Flags(false)).Ok? <==> EmailAddress(v.s)
    ensures Apply(EmailRule, v, None, Flags(false)).Ok? ==> Apply(EmailRule, v, None, Flags(false)).value == v
  {
  }

  /** The `min` and `max` entries of the rule list apply `CheckMin` and `CheckMax`. */
  lemma ApplyBounds(lo: real, hi: real, v: Value)
    ensures Apply(MinRule(lo), v, None, Flags(false)) == CheckMin(lo, v, None, Flags(false))
    ensures Apply(MaxRule(hi), v, None, Flags(false)) == CheckMax(hi, v, None, Flags(false))
  {
  }

  /** On an address `min` and `max` compare its length and pass it unchanged. */
  lemma AddressBounds(lo: real, hi: real, v: Value)
    requires v.Str? && EmailAddress(v.s)
    ensures Apply(MinRule(lo), v, None, Flags(false)).Ok? <==> lo <= |v.s| as real
    ensures Apply(MaxRule(hi), v, None, Flags(false)).Ok? <==> |v.s| as real <= hi
    ensures Apply(MinRule(lo), v, None, Flags(false)).Ok? ==> Apply(MinRule(lo), v, None, Flags(false)).value == v
    ensures Apply(MaxRule(hi), v, None, Flags(false)).Ok? ==> Apply(MaxRule(hi), v, None, Flags(false)).value == v
  {
    AddressIsNotNumber(v.s);
    AddressLength(v.s);
    TextMinLength(lo, v, None);
    TextMaxLength(hi, v, None);
    ApplyBounds(lo, hi, v);
  }

  /** The `min`, `max`, `email`, `required` tail passes an address of fitting length unchanged. */
  lemma AddressTailAccepts(lo: real, hi: real, v: Value)
    requires v.Str? && EmailAddress(v.s) && lo <= |v.s| as real <= hi
    ensures Run([Test("min", MinRule(lo)), Test("max", MaxRule(hi)), Test("email", EmailRule), Test("required", RequiredRule)], v, None) == Ok(v)
  {
    AddressBounds(lo, hi, v);
    EmailRuleOnText(v);
    var m1, m2, m3, m4 := Test("min", MinRule(lo)), Test("max", MaxRule(hi)), Test("email", EmailRule), Test("required", RequiredRule);
    assert [m1, m2, m3, m4] == [m1] + [m2, m3, m4];
    assert [m2, m3, m4] == [m2] + [m3, m4];
    assert [m3, m4] == [m3] + [m4];
    RunHead(m4, [], v);
    RunHead(m3, [m4], v);
    RunHead(m2, [m3, m4], v);
    RunHead(m1, [m2, m3, m4], v);
  }

  /** `min` and `max` never change the value they pass. */
  lemma BoundsKeepValue(lo: real, hi: real, v: Value)
    ensures Apply(MinRule(lo), v, None, Flags(false)).Ok? ==> Apply(MinRule(lo), v, None, Flags(false)).value == v
    ensures Apply(MaxRule(hi), v, None, Flags(false)).Ok? ==> Apply(MaxRule(hi), v, None, Flags(false)).value == v
  {
  }

  /** The same tail refuses text that is not an address. */
  lemma AddressTailRejectsText(lo: real, hi: real, v: Value)
    requires v.Str? && !EmailAddress(v.s)
    ensures Run([Test("min", MinRule(lo)), Test("max", MaxRule(hi)), Test("email", EmailRule), Test("required", RequiredRule)], v, None).Err?
  {
    var m1, m2, m3, m4 := Test("min", MinRule(lo)), Test("max", MaxRule(hi)), Test("email", EmailRule), Test("required", RequiredRule);
    assert [m1, m2, m3, m4] == [m1] + [m2, m3, m4];
    assert [m2, m3, m4] == [m2] + [m3, m4];
    RunHead(m1, [m2, m3, m4], v);
    RunHead(m2, [m3, m4], v);
    RunHead(m3, [m4], v);
    BoundsKeepValue(lo, hi, v);
    EmailRuleOnText(v);
  }

  /** The same tail refuses an address whose length is out of bounds. */
  lemma AddressTailRejectsLength(lo: real, hi: real, v: Value)
    requires v.Str? && EmailAddress(v.s) && !(lo <= |v.s| as real <= hi)
    ensures Run([Test("min", MinRule(lo)), Test("max", MaxRule(hi)), Test("email", EmailRule), Test("required", RequiredRule)], v, None).Err?
  {
    var m1, m2, m3, m4 := Test("min", MinRule(lo)), Test("max", MaxRule(hi)), Test("email", EmailRule), Test("required", RequiredRule);
    assert [m1, m2, m3, m4] == [m1] + [m2, m3, m4];
    RunHead(m1, [m2, m3, m4], v);
    RunHead(m2, [m3, m4], v);
    AddressBounds(lo, hi, v);
  }

  /**
   * That list accepts a value exactly when it is a string whose trimmed text
   * is an address with a length within the bounds; it yields the trimmed text.
   */
  lemma AddressChainAccepts(lo: real, hi: real, v: Value)
    ensures Run(AddressChain(lo, hi), v, None).Ok? <==>
      v.Str? && EmailAddress(Trim(v.s)) && lo <= |Trim(v.s)| as real <= hi
    ensures Run(AddressChain(lo, hi), v, None).Ok? ==>
      Run(AddressChain(lo, hi), v, None).value == Str(Trim(v.s))
  {
    var head := [Test("trim", TrimRule), Test("string", StringRule)];
    var rest := [Test("min", MinRule(lo)), Test("max", MaxRule(hi)), Test("email", EmailRule), Test("required", RequiredRule)];
    assert AddressChain(lo, hi) == head + rest;
    RunAppend(head, rest, v, None);
    TrimThenString(v);
    if v.Str? {
      var w := Str(Trim(v.s));
      if EmailAddress(w.s) && lo <= |w.s| as real <= hi {
        AddressTailAccepts(lo, hi, w);
      } else if EmailAddress(w.s) {
        AddressTailRejectsLength(lo, hi, w);
      } else {
        AddressTailRejectsText(lo, hi, w);
      }
    }
  }

  /** The pieces of the padded sample address. */
  lemma JohnPieces()
    ensures "john@mail.com" == "john" + "@" + "mail.com"
    ensures forall k :: 0 <= k < 4 ==> LocalChar("john"[k])
    ensures " john@mail.com " == " " + "john@mail.com" + " "
    ensures !IsSpace("john@mail.com"[0]) && !IsSpace("john@mail.com"[12])
  {
  }

  /** `john@mail.com` matches the address pattern. */
  lemma SampleAddress()
    ensures EmailAddress("john@mail.com")
  {
    JohnPieces();
    SampleDomain();
    AddressOfParts("john", "mail.com");
  }

  /** Trimming ' john@mail.com ' leaves the address. */
  lemma SampleTrimmed()
    ensures Trim(" john@mail.com ") == "john@mail.com"
  {
    JohnPieces();
    TrimPadded("john@mail.com");
  }

  /** `stringType().min(3).max(15).trim().email().required()` accepts ' john@mail.com ' and yields 'john@mail.com'. */
  method StringChainExample() returns (r: Result<Output, string>)
    ensures r == Ok(Output(Str(" john@mail.com "), Str("john@mail.com"), None))
  {
    var t := new HopType.StringType();
    var _ := t.Min(Num(3.0));
    var _ := t.Max(Num(15.0));
    var _ := t.Trim();
    var _ := t.Email();
    var _ := t.Required();
    assert t.tests == AddressChain(3.0, 15.0);
    SampleTrimmed();
    SampleAddress();
    AddressChainAccepts(3.0, 15.0, Str(" john@mail.com "));
    r := t.Validate(Str(" john@mail.com "), None);
  }

  /** The rule list `min(3).max(5).default(4).required()` builds, run on missing data. */
  lemma NumberChainRun()
    ensures Run([Test("default", DefaultRule(Num(4.0))), Test("number", NumberRule), Test("min", MinRule(3.0)),
                 Test("max", MaxRule(5.0)), Test("required", RequiredRule)], Undefined, None)
            == Ok(Num(4.0))
  {
    var v := Num(4.0);
    var ts := [Test("default", DefaultRule(Num(4.0))), Test("number", NumberRule), Test("min", MinRule(3.0)),
               Test("max", MaxRule(5.0)), Test("required", RequiredRule)];
    assert Run(ts[4..], v, None) == Ok(v);
    assert Run(ts[3..], v, None) == Ok(v) by { assert ts[3..][1..] == ts[4..]; }
    assert Run(ts[2..], v, None) == Ok(v) by { assert ts[2..][1..] == ts[3..]; }
    assert Run(ts[1..], v, None) == Ok(v) by { assert ts[1..][1..] == ts[2..]; }
  }

  /** `numberType().min(3).max(5).default(4).required()` turns missing data into 4. */
  method NumberChainExample() returns (r: Result<Output, string>)
    ensures r == Ok(Output(Undefined, Num(4.0), None))
  {
    var t := new HopType.NumberType();
    var _ := t.Min(Num(3.0));
    var _ := t.Max(Num(5.0));
    var _ := t.Default(Num(4.0));
    var _ := t.Required();
    assert t.tests == [Test("default", DefaultRule(Num(4.0))), Test("number", NumberRule), Test("min", MinRule(3.0)),
                       Test("max", MaxRule(5.0)), Test("required", RequiredRule)];
    NumberChainRun();
    r := t.Validate(Undefined, None);
  }

  /** The field-less messages for the bounds 4 and 5. */
  lemma MinMessage4()
    ensures Subject(None) + " must be greater than or equal to " + NumberText(4.0) == "field must be greater than or equal to 4"
  {
    assert (4.0).Floor == 4 && DigitChar(4) == '4';
  }

  lemma MaxMessage5()
    ensures Subject(None) + " must be less than or equal to " + NumberText(5.0) == "field must be less than or equal to 5"
  {
    assert (5.0).Floor == 5 && DigitChar(5) == '5';
  }

  /** `min(4)` rejects 3 and `max(5)` rejects 6, with the messages of lib/hop/types/number.test.js. */
  lemma NumberBoundsRun()
    ensures Run([Test("number", NumberRule), Test("min", MinRule(4.0))], Num(3.0), None)
            == Err("field must be greater than or equal to 4")
    ensures Run([Test("number", NumberRule), Test("max", MaxRule(5.0))], Num(6.0), None)
            == Err("field must be less than or equal to 5")
  {
    NumberBelowMin(4.0, 3.0, None);
    NumberAboveMax(5.0, 6.0, None);
    MinMessage4();
    MaxMessage5();
    var n := Test("number", NumberRule);
    assert [n, Test("min", MinRule(4.0))] == [n] + [Test("min", MinRule(4.0))];
    assert [n, Test("max", MaxRule(5.0))] == [n] + [Test("max", MaxRule(5.0))];
    RunHead(n, [Test("min", MinRule(4.0))], Num(3.0));
    RunHead(n, [Test("max", MaxRule(5.0))], Num(6.0));
    RunHead(Test("min", MinRule(4.0)), [], Num(3.0));
    RunHead(Test("max", MaxRule(5.0)), [], Num(6.0));
  }

  /** `numberType().min(4)` rejects 3 and `numberType().max(5)` rejects 6. */
  method NumberBoundsExample() returns (below: Result<Output, string>, above: Result<Output, string>)
    ensures below == Err("field must be greater than or equal to 4")
    ensures above == Err("field must be less than or equal to 5")
  {
    NumberBoundsRun();
    var lo := new HopType.NumberType();
    var _ := lo.Min(Num(4.0));
    below := lo.Validate(Num(3.0), None);
    var hi := new HopType.NumberType();
    var _ := hi.Max(Num(5.0));
    above := hi.Validate(Num(6.0), None);
  }
}
