/**
 * The schema aggregator of lib/hop/validate.js: a single hop type validates
 * the whole input, or an object of hop types validates the input field by
 * field and collects one detail per failing field.
 */
module HopValidate {
  import opened Json
  import opened Wrappers
  import opened HopRules
  import opened HopTypes

  /** A per-field error `{field, message, value}`; `value` is the input the rules saw. */
  datatype Detail = Detail(field: Field, message: string, value: Value)

  /** The error `createValidationError` builds: message, `isHop` marker and details. */
  datatype ValidationError = ValidationError(message: string, isHop: bool, details: seq<Detail>)

  /** `{error, value}` of `validateWithHop`; `None` stands for `error: null`. */
  datatype HopOutcome = HopOutcome(error: Option<Detail>, value: Value)

  /** `{value, error}` of the exported `validate`. */
  datatype Outcome = Outcome(value: Value, error: Option<ValidationError>)

  /** One property `field: hopType` of an object of hop schemas, in key order. */
  datatype SchemaEntry = SchemaEntry(field: string, hop: HopType)

  /** What `validate` is given: a hop type, or a plain object of hop types. */
  datatype Schema = HopSchema(hop: HopType) | ObjectSchema(entries: seq<SchemaEntry>)

  /** The hop types an object schema refers to. */
  function Hops(entries: seq<SchemaEntry>): set<HopType> {
    set i | 0 <= i < |entries| :: entries[i].hop
  }

  function CreateValidationError(details: seq<Detail>): ValidationError {
    ValidationError("Validation Error", true, details)
  }

  /**
   * `validateWithHop`: the output of the hop type's rules, or, when a rule
   * throws, the input itself together with a detail carrying the message.
   */
  function ValidateWithHop(data: Value, schema: HopType, field: Field): (r: HopOutcome)
    reads schema
    ensures r.error.None? <==> Run(schema.tests, data, field).Ok?
    ensures r.error.None? ==> r.value == Run(schema.tests, data, field).value
    ensures r.error.Some? ==> r.value == data && r.error.value == Detail(field, Run(schema.tests, data, field).error, data)
  {
    match schema.Validate(data, field)
    case Ok(out) => HopOutcome(None, out.data)
    case Err(msg) => HopOutcome(Some(Detail(field, msg, data)), data)
  }

  /** `data[field]` on a value that is neither undefined nor null. */
  function Member(data: Value, key: string): Value {
    if data.Obj? && key in data.fields then data.fields[key] else Undefined
  }

  /** The TypeError message for reading `key` of undefined or null, as Node 10 words it. */
  function ReadError(data: Value, key: string): string {
    "Cannot read property '" + key + "' of " + (if data.Undefined? then "undefined" else "null")
  }

  /** The outcome for one entry of an object schema. */
  function EntryOutcome(data: Value, e: SchemaEntry): HopOutcome
    reads e.hop
  {
    ValidateWithHop(Member(data, e.field), e.hop, Some(e.field))
  }

  /** The validated object and the details after the entries, in key order. */
  function FieldOutcomes(data: Value, entries: seq<SchemaEntry>): (map<string, Value>, seq<Detail>)
    reads Hops(entries)
    decreases |entries|
  {
    if entries == [] then (map[], [])
    else
      var init := entries[..|entries| - 1];
      assert Hops(init) <= Hops(entries) by {
        forall i | 0 <= i < |init| ensures init[i].hop in Hops(entries) {
          assert init[i] == entries[i];
        }
      }
      var e := entries[|entries| - 1];
      assert e.hop in Hops(entries);
      var (m, errs) := FieldOutcomes(data, init);
      var h := EntryOutcome(data, e);
      (m[e.field := h.value], errs + (if h.error.Some? then [h.error.value] else []))
  }

  /** One more entry: its value is set and its detail, if any, appended. */
  lemma FieldOutcomesStep(data: Value, entries: seq<SchemaEntry>)
    requires entries != []
    ensures var e := entries[|entries| - 1];
      var h := EntryOutcome(data, e);
      var prev := FieldOutcomes(data, entries[..|entries| - 1]);
      FieldOutcomes(data, entries) ==
        (prev.0[e.field := h.value], prev.1 + (if h.error.Some? then [h.error.value] else []))
  {
  }

  /**
   * `validateWithObjectOfHopSchema` as a value: the first `data[field]`
   * throws when the data is undefined or null; otherwise the validated
   * object, and an error exactly when some field failed.
   */
  function ObjectOutcome(data: Value, entries: seq<SchemaEntry>): Result<Outcome, string>
    reads Hops(entries)
  {
    if entries != [] && (data.Undefined? || data.Null?) then Err(ReadError(data, entries[0].field))
    else
      var (m, errs) := FieldOutcomes(data, entries);
      Ok(Outcome(Obj(m), if errs == [] then None else Some(CreateValidationError(errs))))
  }

  /** `validateWithObjectOfHopSchema(data, schema)`: one pass over the schema keys. */
  method ValidateWithObjectOfHopSchema(data: Value, entries: seq<SchemaEntry>) returns (r: Result<Outcome, string>)
    ensures r == ObjectOutcome(data, entries)
  {
    var validated: map<string, Value> := map[];
    var errors: seq<Detail> := [];
    var i := 0;
    while i < |entries|
      invariant 0 <= i <= |entries|
      invariant i > 0 ==> !data.Undefined? && !data.Null?
      invariant validated == FieldOutcomes(data, entries[..i]).0
      invariant errors == FieldOutcomes(data, entries[..i]).1
    {
      var e := entries[i];
      if data.Undefined? || data.Null? {
        return Err(ReadError(data, e.field));
      }
      var h := EntryOutcome(data, e);
      ghost var done := entries[..i + 1];
      assert done[..i] == entries[..i] && done[i] == e;
      FieldOutcomesStep(data, done);
      if h.error.Some? {
        errors := errors + [h.error.value];
      }
      validated := validated[e.field := h.value];
      i := i + 1;
    }
    assert entries[..i] == entries;
    r := Ok(Outcome(Obj(validated), if errors == [] then None else Some(CreateValidationError(errors))));
  }

  /** `validateWithHopSchema`: at most one detail; a falsy validated value falls back to the input. */
  function ValidateWithHopSchema(data: Value, schema: HopType): (r: Outcome)
    reads schema
    ensures r.error.None? <==> Run(schema.tests, data, None).Ok?
    ensures r.error.Some? ==>
      r.error.value == ValidationError("Validation Error", true, [Detail(None, Run(schema.tests, data, None).error, data)])
    ensures r.value == if Run(schema.tests, data, None).Ok? && Truthy(Run(schema.tests, data, None).value)
      then Run(schema.tests, data, None).value else data
  {
    var h := ValidateWithHop(data, schema, None);
    Outcome(if Truthy(h.value) then h.value else data,
            if h.error.Some? then Some(CreateValidationError([h.error.value])) else None)
  }

  /** `isHopSchema`: an object whose `isHop` marker is set, as every hop type has. */
  predicate IsHopSchema(schema: Schema) {
    schema.HopSchema?
  }

  /** The exported `validate(data, schema)`. */
  function Validate(data: Value, schema: Schema): Result<Outcome, string>
    reads if schema.HopSchema? then {schema.hop} else Hops(schema.entries)
  {
    if IsHopSchema(schema) then Ok(ValidateWithHopSchema(data, schema.hop))
    else ObjectOutcome(data, schema.entries)
  }

  // ---------------------------------------------------------------------------
  // Properties of the per-field path

  /** Whether the rules of an entry accept the entry's field of the data. */
  predicate Passes(data: Value, e: SchemaEntry)
    reads e.hop
  {
    Run(e.hop.tests, Member(data, e.field), Some(e.field)).Ok?
  }

  /** The fields of an object schema. */
  function Fields(entries: seq<SchemaEntry>): set<string> {
    set i | 0 <= i < |entries| :: entries[i].field
  }

  /** The validated object has exactly the schema's keys; other keys of the data are dropped. */
  lemma {:induction false} FieldOutcomesKeys(data: Value, entries: seq<SchemaEntry>)
    ensures FieldOutcomes(data, entries).0.Keys == Fields(entries)
    decreases |entries|
  {
    if entries != [] {
      var init := entries[..|entries| - 1];
      FieldOutcomesKeys(data, init);
      FieldOutcomesStep(data, entries);
      assert Fields(entries) == Fields(init) + {entries[|entries| - 1].field} by {
        forall f | f in Fields(entries) ensures f in Fields(init) + {entries[|entries| - 1].field} {
          var i :| 0 <= i < |entries| && entries[i].field == f;
          if i < |entries| - 1 {
            assert init[i] == entries[i];
          }
        }
        forall f | f in Fields(init) ensures f in Fields(entries) {
          var i :| 0 <= i < |init| && init[i].field == f;
          assert entries[i] == init[i];
        }
      }
    }
  }

  /**
   * The value of a field is what the last entry for it produced: the rules'
   * output when they pass, the field's original input when they throw.
   */
  lemma {:induction false} FieldOutcomesValue(data: Value, entries: seq<SchemaEntry>, k: nat)
    requires k < |entries|
    requires forall j :: k < j < |entries| ==> entries[j].field != entries[k].field
    ensures entries[k].field in FieldOutcomes(data, entries).0
    ensures var e := entries[k];
      FieldOutcomes(data, entries).0[e.field] ==
        if Passes(data, e) then Run(e.hop.tests, Member(data, e.field), Some(e.field)).value
        else Member(data, e.field)
    decreases |entries|
  {
    FieldOutcomesStep(data, entries);
    var init := entries[..|entries| - 1];
    if k < |entries| - 1 {
      assert init[k] == entries[k];
      FieldOutcomesValue(data, init, k);
    }
  }

  /** The detail a failing entry contributes: its field, the rules' message and the original input. */
  function DetailOf(data: Value, e: SchemaEntry): seq<Detail>
    reads e.hop
  {
    if Passes(data, e) then []
    else [Detail(Some(e.field), Run(e.hop.tests, Member(data, e.field), Some(e.field)).error, Member(data, e.field))]
  }

  /** The details, defined front to back: one per failing entry, in key order. */
  function FailingDetails(data: Value, entries: seq<SchemaEntry>): seq<Detail>
    reads Hops(entries)
    decreases |entries|
  {
    if entries == [] then []
    else
      assert entries[0].hop in Hops(entries);
      assert Hops(entries[1..]) <= Hops(entries) by {
        forall i | 0 <= i < |entries| - 1 ensures entries[1..][i].hop in Hops(entries) {
          assert entries[1..][i] == entries[i + 1];
        }
      }
      DetailOf(data, entries[0]) + FailingDetails(data, entries[1..])
  }

  /** The first entry's detail comes first. */
  lemma FailingDetailsFront(data: Value, entries: seq<SchemaEntry>)
    requires entries != []
    ensures FailingDetails(data, entries) == DetailOf(data, entries[0]) + FailingDetails(data, entries[1..])
  {
  }

  /** Dropping the last entry of `FailingDetails` drops its detail, if it had one. */
  lemma {:induction false} FailingDetailsSnoc(data: Value, entries: seq<SchemaEntry>)
    requires entries != []
    ensures FailingDetails(data, entries) ==
      FailingDetails(data, entries[..|entries| - 1]) + DetailOf(data, entries[|entries| - 1])
    decreases |entries|
  {
    var init := entries[..|entries| - 1];
    var last := entries[|entries| - 1];
    if |entries| > 1 {
      var rest := entries[1..];
      FailingDetailsSnoc(data, rest);
      assert rest[..|rest| - 1] == init[1..];
      assert rest[|rest| - 1] == last;
      assert init[0] == entries[0];
      FailingDetailsFront(data, entries);
      FailingDetailsFront(data, init);
      var head, tail := DetailOf(data, entries[0]), FailingDetails(data, init[1..]);
      assert head + (tail + DetailOf(data, last)) == (head + tail) + DetailOf(data, last);
    } else {
      assert init == [];
      assert entries[1..] == [];
    }
  }

  /** The detail `validateWithHop` reports for an entry is the entry's `DetailOf`. */
  lemma EntryDetail(data: Value, e: SchemaEntry)
    ensures var h := EntryOutcome(data, e);
      (if h.error.Some? then [h.error.value] else []) == DetailOf(data, e)
  {
  }

  /** The details collected by the loop are exactly the failing entries' details, in key order. */
  lemma {:induction false} DetailsAreFailures(data: Value, entries: seq<SchemaEntry>)
    ensures FieldOutcomes(data, entries).1 == FailingDetails(data, entries)
    decreases |entries|
  {
    if entries != [] {
      FieldOutcomesStep(data, entries);
      FailingDetailsSnoc(data, entries);
      EntryDetail(data, entries[|entries| - 1]);
      DetailsAreFailures(data, entries[..|entries| - 1]);
    }
  }

  /** No details exactly when every entry passes. */
  lemma {:induction false} NoDetailsIffAllPass(data: Value, entries: seq<SchemaEntry>)
    ensures FailingDetails(data, entries) == [] <==> forall i :: 0 <= i < |entries| ==> Passes(data, entries[i])
    decreases |entries|
  {
    if entries != [] {
      var rest := entries[1..];
      NoDetailsIffAllPass(data, rest);
      if FailingDetails(data, entries) == [] {
        forall i | 0 <= i < |entries| ensures Passes(data, entries[i]) {
          if i > 0 {
            assert entries[i] == rest[i - 1];
          }
        }
      } else if Passes(data, entries[0]) {
        var i :| 0 <= i < |rest| && !Passes(data, rest[i]);
        assert rest[i] == entries[i + 1];
      }
    }
  }

  /**
   * The per-field path: it throws only when there is a field to read from
   * undefined or null data; otherwise its value is an object with exactly
   * the schema's keys, and its error is absent exactly when every field
   * passes, and otherwise a `Validation Error` whose details are the failing
   * fields' details in key order.
   */
  lemma ObjectOutcomeFacts(data: Value, entries: seq<SchemaEntry>)
    ensures ObjectOutcome(data, entries).Err? <==> entries != [] && (data.Undefined? || data.Null?)
    ensures var r := ObjectOutcome(data, entries);
      r.Ok? ==>
        && r.value.value.Obj? && r.value.value.fields.Keys == Fields(entries)
        && (r.value.error.None? <==> forall i :: 0 <= i < |entries| ==> Passes(data, entries[i]))
        && (r.value.error.Some? ==>
              r.value.error.value == ValidationError("Validation Error", true, FailingDetails(data, entries)))
  {
    FieldOutcomesKeys(data, entries);
    DetailsAreFailures(data, entries);
    NoDetailsIffAllPass(data, entries);
  }

  /**
   * What `validate` promises its callers: a single hop type never throws and
   * reports at most one detail; an object schema throws only when a field is
   * read from undefined or null data; every error is a hop `Validation Error`
   * with at least one detail.
   */
  lemma ValidateFacts(data: Value, schema: Schema)
    ensures schema.HopSchema? ==> Validate(data, schema).Ok?
    ensures schema.HopSchema? && Validate(data, schema).value.error.Some? ==>
      |Validate(data, schema).value.error.value.details| == 1
    ensures schema.ObjectSchema? ==>
      (Validate(data, schema).Err? <==> schema.entries != [] && (data.Undefined? || data.Null?))
    ensures schema.ObjectSchema? && Validate(data, schema).Ok? ==>
      Validate(data, schema).value.value.Obj? && Validate(data, schema).value.value.fields.Keys == Fields(schema.entries)
    ensures Validate(data, schema).Ok? && Validate(data, schema).value.error.Some? ==>
      var err := Validate(data, schema).value.error.value;
      err.message == "Validation Error" && err.isHop && err.details != []
  {
    if schema.ObjectSchema? {
      ObjectOutcomeFacts(data, schema.entries);
    }
  }
}
