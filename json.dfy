/**
 * JavaScript values as they travel through the store, the validator and the
 * error helpers, with the few coercions the code relies on: `typeof === 'object'`,
 * truthiness, object spread, `String(v)` and the JSON round trip.
 */
module Json {

  /** A JavaScript value. Object key order is not kept (see README). */
  datatype Value =
    | Undefined
    | Null
    | Bool(b: bool)
    | Num(n: real)
    | Str(s: string)
    | Arr(items: seq<Value>)
    | Obj(fields: map<string, Value>)

  /** `typeof v === 'object'`: true for null and arrays as well as plain objects. */
  predicate IsObject(v: Value) {
    v.Null? || v.Arr? || v.Obj?
  }

  /** JavaScript truthiness (`!!v`); NaN is not a modelled number. */
  predicate Truthy(v: Value) {
    match v
    case Undefined => false
    case Null => false
    case Bool(b) => b
    case Num(n) => n != 0.0
    case Str(s) => s != ""
    case _ => true
  }

  // ---------------------------------------------------------------------------
  // Decimal digits

  predicate IsDigit(c: char) {
    '0' <= c <= '9'
  }

  predicate AllDigits(s: string) {
    forall i :: 0 <= i < |s| ==> IsDigit(s[i])
  }

  function DigitChar(d: nat): (c: char)
    requires d < 10
    ensures IsDigit(c) && (c as int) - ('0' as int) == d
  {
    (('0' as int) + d) as char
  }

  /** The number a run of decimal digits denotes (most significant first). */
  function DigitsValue(s: string): nat
    requires AllDigits(s)
  {
    if s == [] then 0
    else DigitsValue(s[..|s| - 1]) * 10 + ((s[|s| - 1] as int) - ('0' as int))
  }

  /** Decimal rendering of a natural number, as `String(n)` gives it. */
  function NatText(n: nat): (t: string)
    ensures |t| > 0 && AllDigits(t)
  {
    if n < 10 then [DigitChar(n)] else NatText(n / 10) + [DigitChar(n % 10)]
  }

  /** Reading the digits back gives the number: the rendering loses nothing. */
  lemma {:induction false} NatTextRoundTrip(n: nat)
    ensures DigitsValue(NatText(n)) == n
  {
    if n >= 10 {
      NatTextRoundTrip(n / 10);
      var t := NatText(n);
      assert t[..|t| - 1] == NatText(n / 10);
    }
  }

  /** Distinct indices render to distinct property names. */
  lemma NatTextInjective()
    ensures forall i: nat, j: nat :: NatText(i) == NatText(j) ==> i == j
  {
    forall i: nat, j: nat | NatText(i) == NatText(j)
      ensures i == j
    {
      NatTextRoundTrip(i);
      NatTextRoundTrip(j);
    }
  }

  // ---------------------------------------------------------------------------
  // Object spread

  /**
   * The own enumerable properties that `{...v}` copies: an object's fields,
   * an array's or a string's elements under their decimal indices, and
   * nothing for every other value.
   */
  function OwnEntries(v: Value): (m: map<string, Value>)
    ensures v.Obj? ==> m == v.fields
    ensures !v.Obj? && !v.Arr? && !v.Str? ==> m == map[]
    ensures v.Arr? ==> m.Keys == IndexKeys(|v.items|)
    ensures v.Arr? ==> forall i :: 0 <= i < |v.items| ==> NatText(i) in m && m[NatText(i)] == v.items[i]
    ensures v.Str? ==> m.Keys == IndexKeys(|v.s|)
    ensures v.Str? ==> forall i :: 0 <= i < |v.s| ==> NatText(i) in m && m[NatText(i)] == Str([v.s[i]])
  {
    match v
    case Obj(fields) => fields
    case Arr(items) => IndexedEntries(items)
    case Str(s) => IndexedEntries(seq(|s|, i requires 0 <= i < |s| => Str([s[i]])))
    case _ => map[]
  }

  /** The decimal indices below `n`. */
  function IndexKeys(n: nat): set<string> {
    set i | 0 <= i < n :: NatText(i)
  }

  /** The elements of a sequence under their decimal indices. */
  function IndexedEntries(items: seq<Value>): (m: map<string, Value>)
    ensures m.Keys == IndexKeys(|items|)
    ensures forall i :: 0 <= i < |items| ==> NatText(i) in m && m[NatText(i)] == items[i]
  {
    if items == [] then map[]
    else
      var n := |items| - 1;
      var m := IndexedEntries(items[..n]);
      NatTextInjective();
      assert IndexKeys(n + 1) == IndexKeys(n) + {NatText(n)};
      m[NatText(n) := items[n]]
  }

  /** `{ ...a, ...b }`: every property of `b`, and those of `a` that `b` does not override. */
  function Spread(a: Value, b: Value): (r: Value)
    ensures r.Obj? && r.fields.Keys == OwnEntries(a).Keys + OwnEntries(b).Keys
    ensures forall k :: k in OwnEntries(b) ==> r.fields[k] == OwnEntries(b)[k]
    ensures forall k :: k in OwnEntries(a) && k !in OwnEntries(b) ==> r.fields[k] == OwnEntries(a)[k]
  {
    Obj(OwnEntries(a) + OwnEntries(b))
  }

  /** `{ ...v, ...{ _id: id } }`: the identity field laid over the spread of `v`. */
  function WithId(v: Value, id: string): (r: Value)
    ensures r.Obj? && "_id" in r.fields && r.fields["_id"] == Str(id)
    ensures r.fields.Keys == OwnEntries(v).Keys + {"_id"}
    ensures forall k :: k in OwnEntries(v) && k != "_id" ==> r.fields[k] == OwnEntries(v)[k]
  {
    Spread(v, Obj(map["_id" := Str(id)]))
  }

  // ---------------------------------------------------------------------------
  // JSON round trip

  /** A value that `JSON.stringify` keeps exactly: no `undefined` anywhere in it. */
  predicate JsonClean(v: Value) {
    match v
    case Undefined => false
    case Arr(items) => forall i :: 0 <= i < |items| ==> JsonClean(items[i])
    case Obj(fields) => forall k :: k in fields ==> JsonClean(fields[k])
    case _ => true
  }

  /**
   * `JSON.parse(JSON.stringify(v))` for a value that is not itself undefined:
   * object fields holding `undefined` are dropped and `undefined` array
   * items become `null`.
   */
  function Jsonify(v: Value): Value {
    match v
    case Arr(items) =>
      Arr(seq(|items|, i requires 0 <= i < |items| => if items[i].Undefined? then Null else Jsonify(items[i])))
    case Obj(fields) =>
      Obj(map k | k in fields && !fields[k].Undefined? :: Jsonify(fields[k]))
    case _ => v
  }

  /** A clean value survives the round trip unchanged. */
  lemma {:induction false} JsonifyKeepsClean(v: Value)
    requires JsonClean(v)
    ensures Jsonify(v) == v
  {
    match v
    case Arr(items) =>
      forall i | 0 <= i < |items| ensures Jsonify(items[i]) == items[i] {
        JsonifyKeepsClean(items[i]);
      }
      assert Jsonify(v).items == items;
    case Obj(fields) =>
      forall k | k in fields ensures Jsonify(fields[k]) == fields[k] {
        JsonifyKeepsClean(fields[k]);
      }
      assert Jsonify(v).fields == fields;
    case _ =>
  }

  /** Whatever went in, what comes back out of the round trip is clean. */
  lemma {:induction false} JsonifyIsClean(v: Value)
    requires !v.Undefined?
    ensures JsonClean(Jsonify(v))
  {
    match v
    case Arr(items) =>
      forall i | 0 <= i < |items| && !items[i].Undefined? ensures JsonClean(Jsonify(items[i])) {
        JsonifyIsClean(items[i]);
      }
    case Obj(fields) =>
      forall k | k in fields && !fields[k].Undefined? ensures JsonClean(Jsonify(fields[k])) {
        JsonifyIsClean(fields[k]);
      }
    case _ =>
  }

  // ---------------------------------------------------------------------------
  // String(v), as template literals and Array.prototype.join use it

  /**
   * Decimal rendering of a number. Integers are exact; a fraction is written
   * with at most 20 digits after the point (JavaScript's shortest round-trip
   * form for doubles is not modelled).
   */
  function NumberText(r: real): (t: string)
    ensures |t| > 0
  {
    if r < 0.0 then "-" + UnsignedText(-r) else UnsignedText(r)
  }

  function UnsignedText(r: real): (t: string)
    requires r >= 0.0
    ensures |t| > 0
  {
    var whole := r.Floor;
    NatText(whole) + (if r == whole as real then "" else "." + FractionDigits(r - whole as real, 20))
  }

  function FractionDigits(f: real, fuel: nat): string
    requires 0.0 <= f < 1.0
    decreases fuel
  {
    if fuel == 0 || f == 0.0 then ""
    else
      var d := (f * 10.0).Floor;
      [DigitChar(d)] + FractionDigits(f * 10.0 - d as real, fuel - 1)
  }

  /** `String(v)`. */
  function ToText(v: Value): string {
    match v
    case Undefined => "undefined"
    case Null => "null"
    case Bool(b) => if b then "true" else "false"
    case Num(n) => NumberText(n)
    case Str(s) => s
    case Arr(items) => Join(items, ",")
    case Obj(_) => "[object Object]"
  }

  /** `items.join(sep)`: null and undefined items contribute the empty string. */
  function Join(items: seq<Value>, sep: string): string
  {
    if items == [] then ""
    else
      var last := items[|items| - 1];
      var lastText := if last.Null? || last.Undefined? then "" else ToText(last);
      if |items| == 1 then lastText else Join(items[..|items| - 1], sep) + sep + lastText
  }
}
