/**
 * The application error helpers of lib/error/index.js: `customError` builds
 * an error with a name and a code, and `validationError` adds a list of
 * details, each normalised by a hop object schema that throws on a detail
 * without a message or a field.
 */
module AppErrors {
  import opened Json
  import opened Wrappers
  import opened HopRules
  import opened HopTypes
  import opened HopValidate

  /** An `Error` carrying the `name`, `code` and (for validation errors) `details` the helpers set. */
  datatype AppError = AppError(message: string, name: string, code: string, details: Option<seq<Value>>)

  /** What `validationError` can throw: the hop validation error of a bad detail, or a `TypeError`. */
  datatype Thrown = Invalid(error: ValidationError) | TypeError(message: string)

  /**
   * `customError({message, name, code})`: an absent option takes its default
   * (`CustomError`, `CUSTOM_ERROR`), and an absent message gives `new Error()`'s
   * empty message.
   */
  function CustomError(message: Option<string>, name: Option<string>, code: Option<string>): AppError {
    AppError(if message.Some? then message.value else "",
             if name.Some? then name.value else "CustomError",
             if code.Some? then code.value else "CUSTOM_ERROR",
             None)
  }

  /** The defaults of `customError` apply exactly to the options left out, and it never carries details. */
  lemma CustomErrorOptions(message: Option<string>, name: Option<string>, code: Option<string>)
    ensures var e := CustomError(message, name, code);
      && (name.None? ==> e.name == "CustomError")
      && (name.Some? ==> e.name == name.value)
      && (code.Some? ==> e.code == code.value)
      && (code.None? ==> e.code == "CUSTOM_ERROR")
      && (message.Some? ==> e.message == message.value)
      && (message.None? ==> e.message == "")
      && e.details.None?
  {
  }

  // ---------------------------------------------------------------------------
  // The details schema

  /** `hop.string().required()`: a string rule, then `required`. */
  const RequiredText: seq<Test> := [Test("string", StringRule), Test("required", RequiredRule)]

  /** `hop.string().default('')`: the `default` rule is put in front of the string rule. */
  const TextOrEmpty: seq<Test> := [Test("default", DefaultRule(Str(""))), Test("string", StringRule)]

  /** The module-level `detailsSchema`: `message`, `field` and `value`, in that key order. */
  predicate IsDetailsSchema(entries: seq<SchemaEntry>)
    reads Hops(entries)
  {
    && |entries| == 3
    && entries[0].field == "message" && entries[0].hop.tests == RequiredText
    && entries[1].field == "field" && entries[1].hop.tests == RequiredText
    && entries[2].field == "value" && entries[2].hop.tests == TextOrEmpty
  }

  /** Builds `detailsSchema` with the hop builders. */
  method DetailsSchema() returns (entries: seq<SchemaEntry>)
    ensures IsDetailsSchema(entries)
    ensures fresh(Hops(entries))
  {
    var message := new HopType.StringType();
    message := message.Required();
    var field := new HopType.StringType();
    field := field.Required();
    var value := new HopType.StringType();
    value := value.Default(Str(""));
    entries := [SchemaEntry("message", message), SchemaEntry("field", field), SchemaEntry("value", value)];
    assert Hops(entries) == {message, field, value} by {
      assert entries[0].hop == message && entries[1].hop == field && entries[2].hop == value;
    }
  }

  /** `string().required()` accepts exactly the non-empty strings and keeps them. */
  lemma RequiredTextRun(v: Value, field: Field)
    ensures Run(RequiredText, v, field).Ok? <==> v.Str? && v.s != ""
    ensures Run(RequiredText, v, field).Ok? ==> Run(RequiredText, v, field).value == v
  {
    assert RequiredText[1..] == [Test("required", RequiredRule)];
    assert RequiredText[1..][1..] == [];
  }

  /** `string().default('')` turns a falsy value into `''` and then accepts only strings. */
  lemma TextOrEmptyRun(v: Value, field: Field)
    ensures Run(TextOrEmpty, v, field).Ok? <==> !Truthy(v) || v.Str?
    ensures Run(TextOrEmpty, v, field).Ok? ==> Run(TextOrEmpty, v, field).value == GetDefault(Str(""), v)
  {
    assert TextOrEmpty[1..] == [Test("string", StringRule)];
    assert TextOrEmpty[1..][1..] == [];
  }

  // ---------------------------------------------------------------------------
  // Normalising the details

  /** A detail the schema accepts: an object with a non-empty string message and field, and a string or falsy value. */
  predicate WellFormedDetail(d: Value) {
    var message := Member(d, "message");
    var field := Member(d, "field");
    var value := Member(d, "value");
    && message.Str? && message.s != ""
    && field.Str? && field.s != ""
    && (!Truthy(value) || value.Str?)
  }

  /** The detail the schema returns: exactly the three keys, with a falsy value replaced by `''`. */
  function Normalised(d: Value): Value {
    Obj(map["message" := Member(d, "message"), "field" := Member(d, "field"),
            "value" := GetDefault(Str(""), Member(d, "value"))])
  }

  /** One step of the `details.map(...)` callback: `hop.validate(detail, detailsSchema)`, throwing its error. */
  function CheckDetail(d: Value, entries: seq<SchemaEntry>): Result<Value, Thrown>
    reads Hops(entries)
  {
    match Validate(d, ObjectSchema(entries))
    case Err(msg) => Err(TypeError(msg))
    case Ok(out) => if out.error.Some? then Err(Invalid(out.error.value)) else Ok(out.value)
  }

  /** Each entry of the details schema accepts what `WellFormedDetail` asks of its key. */
  lemma DetailPasses(d: Value, entries: seq<SchemaEntry>)
    requires IsDetailsSchema(entries)
    ensures Passes(d, entries[0]) <==> Member(d, "message").Str? && Member(d, "message").s != ""
    ensures Passes(d, entries[1]) <==> Member(d, "field").Str? && Member(d, "field").s != ""
    ensures Passes(d, entries[2]) <==> !Truthy(Member(d, "value")) || Member(d, "value").Str?
  {
    RequiredTextRun(Member(d, "message"), Some("message"));
    RequiredTextRun(Member(d, "field"), Some("field"));
    TextOrEmptyRun(Member(d, "value"), Some("value"));
  }

  /** On a well-formed detail each entry produces the value `Normalised` puts under its key. */
  lemma DetailValues(d: Value, entries: seq<SchemaEntry>)
    requires IsDetailsSchema(entries)
    requires WellFormedDetail(d)
    ensures "message" in FieldOutcomes(d, entries).0 && FieldOutcomes(d, entries).0["message"] == Member(d, "message")
    ensures "field" in FieldOutcomes(d, entries).0 && FieldOutcomes(d, entries).0["field"] == Member(d, "field")
    ensures "value" in FieldOutcomes(d, entries).0 &&
      FieldOutcomes(d, entries).0["value"] == GetDefault(Str(""), Member(d, "value"))
  {
    DetailPasses(d, entries);
    RequiredTextRun(Member(d, "message"), Some("message"));
    RequiredTextRun(Member(d, "field"), Some("field"));
    TextOrEmptyRun(Member(d, "value"), Some("value"));
    FieldOutcomesValue(d, entries, 0);
    FieldOutcomesValue(d, entries, 1);
    FieldOutcomesValue(d, entries, 2);
  }

  /** The details schema has the keys `message`, `field` and `value`. */
  lemma DetailFields(entries: seq<SchemaEntry>)
    requires IsDetailsSchema(entries)
    ensures Fields(entries) == {"message", "field", "value"}
  {
    assert entries[0].field in Fields(entries);
    assert entries[1].field in Fields(entries);
    assert entries[2].field in Fields(entries);
  }

  /**
   * A detail passes exactly when it is well formed; an undefined or null
   * detail throws a `TypeError`, any other bad detail the hop
   * `Validation Error`.
   */
  lemma CheckDetailAccepts(d: Value, entries: seq<SchemaEntry>)
    requires IsDetailsSchema(entries)
    ensures CheckDetail(d, entries).Ok? <==> Acceptable(d)
    ensures d.Undefined? || d.Null? ==> CheckDetail(d, entries).Err? && CheckDetail(d, entries).error.TypeError?
    ensures !d.Undefined? && !d.Null? && !WellFormedDetail(d) ==>
      && CheckDetail(d, entries).Err? && CheckDetail(d, entries).error.Invalid?
      && CheckDetail(d, entries).error.error.message == "Validation Error" && CheckDetail(d, entries).error.error.isHop
  {
    ValidateFacts(d, ObjectSchema(entries));
    if !d.Undefined? && !d.Null? {
      ObjectOutcomeFacts(d, entries);
      DetailPasses(d, entries);
      if WellFormedDetail(d) {
        forall i | 0 <= i < |entries| ensures Passes(d, entries[i]) {
          assert i == 0 || i == 1 || i == 2;
        }
      }
    }
  }

  /** An acceptable detail comes back with exactly its message, its field and its value or `''`. */
  lemma CheckDetailNormalises(d: Value, entries: seq<SchemaEntry>)
    requires IsDetailsSchema(entries)
    requires Acceptable(d)
    ensures CheckDetail(d, entries).Ok? && CheckDetail(d, entries).value == Normalised(d)
  {
    CheckDetailAccepts(d, entries);
    ObjectOutcomeFacts(d, entries);
    DetailValues(d, entries);
    DetailFields(entries);
    var m := FieldOutcomes(d, entries).0;
    assert m.Keys == Normalised(d).fields.Keys;
    assert m == Normalised(d).fields;
  }

  /** `ensureHasCorrectFieldsInDetails(details)`: the details in order, normalised; the first bad one throws. */
  function EnsureDetails(details: seq<Value>, entries: seq<SchemaEntry>): Result<seq<Value>, Thrown>
    reads Hops(entries)
  {
    if details == [] then Ok([])
    else
      match CheckDetail(details[0], entries)
      case Err(e) => Err(e)
      case Ok(d) =>
        match EnsureDetails(details[1..], entries)
        case Err(e) => Err(e)
        case Ok(rest) => Ok([d] + rest)
  }

  /**
   * `details.map` with a throwing callback: it succeeds exactly when every
   * detail passes, and then each detail is replaced in place by the
   * callback's result.
   */
  lemma {:induction false} EnsureDetailsMaps(details: seq<Value>, entries: seq<SchemaEntry>)
    ensures var r := EnsureDetails(details, entries);
      && (r.Ok? <==> forall i :: 0 <= i < |details| ==> CheckDetail(details[i], entries).Ok?)
      && (r.Ok? ==> |r.value| == |details|)
      && (r.Ok? ==> forall i :: 0 <= i < |details| ==> r.value[i] == CheckDetail(details[i], entries).value)
    decreases |details|
  {
    if details != [] {
      var rest := details[1..];
      EnsureDetailsMaps(rest, entries);
      forall i | 0 < i < |details| ensures details[i] == rest[i - 1] {
      }
    }
  }

  /** When `details.map` throws, it throws the error of the first failing detail. */
  lemma {:induction false} EnsureDetailsThrowsFirst(details: seq<Value>, entries: seq<SchemaEntry>)
    ensures var r := EnsureDetails(details, entries);
      r.Err? ==> exists k :: 0 <= k < |details| && FirstFailure(details, entries, k) &&
                   CheckDetail(details[k], entries) == Err(r.error)
    decreases |details|
  {
    if details != [] && CheckDetail(details[0], entries).Ok? {
      var rest := details[1..];
      EnsureDetailsThrowsFirst(rest, entries);
      var r := EnsureDetails(details, entries);
      if EnsureDetails(rest, entries).Err? {
        var k :| 0 <= k < |rest| && FirstFailure(rest, entries, k) && CheckDetail(rest[k], entries) == Err(r.error);
        assert FirstFailure(details, entries, k + 1) by {
          forall i | 0 < i <= k ensures details[i] == rest[i - 1] {
          }
        }
      }
    } else if details != [] {
      assert FirstFailure(details, entries, 0);
    }
  }

  /** Detail `k` is the first one the callback throws on. */
  predicate FirstFailure(details: seq<Value>, entries: seq<SchemaEntry>, k: nat)
    requires k < |details|
    reads Hops(entries)
  {
    CheckDetail(details[k], entries).Err? && forall i :: 0 <= i < k ==> CheckDetail(details[i], entries).Ok?
  }

  /** A detail `validationError` keeps: a well-formed object (neither undefined nor null). */
  predicate Acceptable(d: Value) {
    !d.Undefined? && !d.Null? && WellFormedDetail(d)
  }

  /**
   * `validationError({message, details})`: a `ValidationError` error with code
   * `VALIDATION_ERROR`; left-out details default to `[]`, and a non-array
   * makes `details.map` throw: reading it from null, or calling what is not
   * a function.
   */
  function ValidationErrorOf(message: Option<string>, details: Value, entries: seq<SchemaEntry>): Result<AppError, Thrown>
    reads Hops(entries)
  {
    var error := CustomError(message, Some("ValidationError"), Some("VALIDATION_ERROR"));
    if details.Undefined? then Ok(error.(details := Some([])))
    else if details.Null? then Err(TypeError(ReadError(details, "map")))
    else if !details.Arr? then Err(TypeError("details.map is not a function"))
    else
      match EnsureDetails(details.items, entries)
      case Err(e) => Err(e)
      case Ok(ds) => Ok(error.(details := Some(ds)))
  }

  /**
   * `validationError` succeeds exactly when the details are left out or are an
   * array of acceptable details; the error is then named `ValidationError`
   * with code `VALIDATION_ERROR` and carries the normalised details in order.
   */
  lemma ValidationErrorSpec(message: Option<string>, details: Value, entries: seq<SchemaEntry>)
    requires IsDetailsSchema(entries)
    ensures var r := ValidationErrorOf(message, details, entries);
      && (r.Ok? <==> details.Undefined? || (details.Arr? && forall i :: 0 <= i < |details.items| ==> Acceptable(details.items[i])))
      && (r.Ok? ==> r.value.name == "ValidationError" && r.value.code == "VALIDATION_ERROR")
      && (r.Ok? ==> r.value.message == (if message.Some? then message.value else ""))
      && (r.Ok? ==> r.value.details.Some? && |r.value.details.value| == (if details.Arr? then |details.items| else 0))
      && (r.Ok? && details.Arr? ==>
            forall i :: 0 <= i < |details.items| ==> r.value.details.value[i] == Normalised(details.items[i]))
      && (details.Null? ==> r == Err(TypeError(ReadError(Null, "map"))))
      && (!details.Undefined? && !details.Null? && !details.Arr? ==> r == Err(TypeError("details.map is not a function")))
  {
    if details.Arr? {
      EnsureDetailsMaps(details.items, entries);
      forall i | 0 <= i < |details.items| ensures CheckDetail(details.items[i], entries).Ok? <==> Acceptable(details.items[i]) {
        CheckDetailAccepts(details.items[i], entries);
      }
      forall i | 0 <= i < |details.items| && Acceptable(details.items[i])
        ensures CheckDetail(details.items[i], entries).value == Normalised(details.items[i])
      {
        CheckDetailNormalises(details.items[i], entries);
      }
    }
  }

  /**
   * An array of details with a malformed object entry throws the hop
   * `Validation Error` (the error the message-less and field-less details of
   * the tests raise).
   */
  lemma BadDetailThrowsValidationError(message: Option<string>, items: seq<Value>, entries: seq<SchemaEntry>)
    requires IsDetailsSchema(entries)
    requires forall i :: 0 <= i < |items| ==> !items[i].Undefined? && !items[i].Null?
    requires exists i :: 0 <= i < |items| && !WellFormedDetail(items[i])
    ensures var r := ValidationErrorOf(message, Arr(items), entries);
      r.Err? && r.error.Invalid? && r.error.error.message == "Validation Error" && r.error.error.isHop
  {
    EnsureDetailsMaps(items, entries);
    EnsureDetailsThrowsFirst(items, entries);
    var r := EnsureDetails(items, entries);
    var i :| 0 <= i < |items| && !WellFormedDetail(items[i]);
    CheckDetailAccepts(items[i], entries);
    var k :| 0 <= k < |items| && FirstFailure(items, entries, k) && CheckDetail(items[k], entries) == Err(r.error);
    CheckDetailAccepts(items[k], entries);
  }
}
