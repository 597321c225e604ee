/**
 * The size of the text `JSON.stringify` writes for a value, in UTF-8 bytes:
 * what a file holding the value is as long as. An object's size is the sum
 * of its entries' sizes, which does not depend on the order the entries are
 * written in; the entries are added up in one fixed order of their keys.
 */
module JsonText {
  import opened Json

  // ---------------------------------------------------------------------------
  // A fixed order on keys

  /** `a` is no later than `b` character by character (a prefix comes first). */
  predicate KeyLe(a: string, b: string) {
    a == [] || (b != [] && (a[0] < b[0] || (a[0] == b[0] && KeyLe(a[1..], b[1..]))))
  }

  lemma {:induction false} KeyLeReflexive(a: string)
    ensures KeyLe(a, a)
  {
    if a != [] {
      KeyLeReflexive(a[1..]);
    }
  }

  lemma {:induction false} KeyLeTotal(a: string, b: string)
    ensures KeyLe(a, b) || KeyLe(b, a)
  {
    if a != [] && b != [] && a[0] == b[0] {
      KeyLeTotal(a[1..], b[1..]);
    }
  }

  lemma {:induction false} KeyLeAntisymmetric(a: string, b: string)
    requires KeyLe(a, b) && KeyLe(b, a)
    ensures a == b
  {
    if a != [] {
      KeyLeAntisymmetric(a[1..], b[1..]);
      assert a == [a[0]] + a[1..] && b == [b[0]] + b[1..];
    }
  }

  lemma {:induction false} KeyLeTransitive(a: string, b: string, c: string)
    requires KeyLe(a, b) && KeyLe(b, c)
    ensures KeyLe(a, c)
  {
    if a != [] && a[0] == b[0] && b[0] == c[0] {
      KeyLeTransitive(a[1..], b[1..], c[1..]);
    }
  }

  /** Every non-empty set of keys has a first key. */
  lemma {:induction false} FirstKeyExists(ks: set<string>)
    requires ks != {}
    ensures exists k :: k in ks && forall j :: j in ks ==> KeyLe(k, j)
    decreases |ks|
  {
    var x :| x in ks;
    KeyLeReflexive(x);
    if ks == {x} {
      assert forall j :: j in ks ==> KeyLe(x, j);
    } else {
      FirstKeyExists(ks - {x});
      var m :| m in ks - {x} && forall j :: j in ks - {x} ==> KeyLe(m, j);
      KeyLeTotal(m, x);
      if KeyLe(m, x) {
        assert forall j :: j in ks ==> KeyLe(m, j);
      } else {
        forall j | j in ks ensures KeyLe(x, j) {
          if j != x {
            KeyLeTransitive(x, m, j);
          }
        }
      }
    }
  }

  /** The first key of a non-empty set. */
  function FirstKey(ks: set<string>): (k: string)
    requires ks != {}
    ensures k in ks && forall j :: j in ks ==> KeyLe(k, j)
  {
    FirstKeyExists(ks);
    assert forall a, b :: a in ks && b in ks && KeyLe(a, b) && KeyLe(b, a) ==> a == b by {
      forall a, b | a in ks && b in ks && KeyLe(a, b) && KeyLe(b, a) ensures a == b {
        KeyLeAntisymmetric(a, b);
      }
    }
    var k :| k in ks && forall j :: j in ks ==> KeyLe(k, j);
    k
  }

  // ---------------------------------------------------------------------------
  // Sums

  /** The sum of a map's numbers, first key first. */
  function SumOf(m: map<string, nat>): nat
    decreases |m|
  {
    if m.Keys == {} then 0
    else
      var k := FirstKey(m.Keys);
      TakeOutSize(m, k);
      m[k] + SumOf(m - {k})
  }

  lemma TakeOutSize(m: map<string, nat>, k: string)
    requires k in m
    ensures |m - {k}| == |m| - 1
  {
    assert (m - {k}).Keys == m.Keys - {k};
  }

  lemma SumOfFirst(m: map<string, nat>)
    requires m.Keys != {}
    ensures SumOf(m) == m[FirstKey(m.Keys)] + SumOf(m - {FirstKey(m.Keys)})
  {
  }

  /** The sum takes out any one entry: it does not depend on the order of the keys. */
  lemma {:induction false} SumTakesOut(m: map<string, nat>, k: string)
    requires k in m
    ensures SumOf(m) == m[k] + SumOf(m - {k})
    decreases |m|
  {
    var k0 := FirstKey(m.Keys);
    if k != k0 {
      var m0, m1 := m - {k0}, m - {k};
      TakeOutSize(m, k0);
      TakeOutSize(m, k);
      SumOfFirst(m);
      assert SumOf(m) == m[k0] + SumOf(m0);
      SumTakesOut(m0, k);
      assert SumOf(m0) == m[k] + SumOf(m0 - {k});
      SumTakesOut(m1, k0);
      assert SumOf(m1) == m[k0] + SumOf(m1 - {k0});
      assert m0 - {k} == m1 - {k0};
    }
  }

  /** Replacing one entry changes the sum by the difference. */
  lemma SumReplaces(m: map<string, nat>, k: string, n: nat)
    requires k in m
    ensures SumOf(m[k := n]) + m[k] == SumOf(m) + n
  {
    SumTakesOut(m, k);
    SumTakesOut(m[k := n], k);
    assert m[k := n] - {k} == m - {k};
  }

  /** The sum of a sequence of numbers. */
  function SeqSum(s: seq<nat>): nat {
    if s == [] then 0 else SeqSum(s[..|s| - 1]) + s[|s| - 1]
  }

  // ---------------------------------------------------------------------------
  // Text sizes

  /** The bytes of one character inside JSON string text, after escaping. */
  function EscapedCharBytes(c: char): nat {
    if c == '"' || c == '\\' then 2
    else if c == '\U{8}' || c == '\t' || c == '\n' || c == '\U{C}' || c == '\r' then 2
    else if c < ' ' then 6
    else if c as int < 0x80 then 1
    else if c as int < 0x800 then 2
    else if c as int < 0x1_0000 then 3
    else 4
  }

  function CharsBytes(s: string): nat {
    if s == [] then 0 else EscapedCharBytes(s[0]) + CharsBytes(s[1..])
  }

  /** A string or key in quotes. */
  function StringBytes(s: string): nat {
    2 + CharsBytes(s)
  }

  /** The commas between `n` items. */
  function Commas(n: nat): nat {
    if n == 0 then 0 else n - 1
  }

  /** The sizes of an object's written entries (`"key":value`); `undefined` fields are skipped. */
  function EntryBytes(fields: map<string, Value>): map<string, nat>
    decreases Obj(fields), 0
  {
    map k | k in fields && !fields[k].Undefined? :: EntrySize(k, fields[k])
  }

  /** The size of one written entry. */
  function EntrySize(k: string, v: Value): nat
    decreases v, 2
  {
    StringBytes(k) + 1 + TextBytes(v)
  }

  /**
   * The UTF-8 length of `JSON.stringify(v)`. An `undefined` item of an
   * array is written as `null`.
   */
  function TextBytes(v: Value): nat
    decreases v, 1
  {
    match v
    case Undefined => 4
    case Null => 4
    case Bool(b) => if b then 4 else 5
    case Num(n) => |NumberText(n)|
    case Str(s) => StringBytes(s)
    case Arr(items) =>
      2 + Commas(|items|) + SeqSum(seq(|items|, i requires 0 <= i < |items| => TextBytes(items[i])))
    case Obj(fields) =>
      2 + Commas(|EntryBytes(fields)|) + SumOf(EntryBytes(fields))
  }

  /** Replacing a written field by another written value replaces that entry's size. */
  lemma EntryReplaced(fields: map<string, Value>, k: string, v: Value)
    requires k in fields && !fields[k].Undefined? && !v.Undefined?
    ensures EntryBytes(fields[k := v]) == EntryBytes(fields)[k := EntrySize(k, v)]
  {
    var e := EntryBytes(fields);
    var e' := EntryBytes(fields[k := v]);
    var u := e[k := EntrySize(k, v)];
    assert e'.Keys == u.Keys;
    forall j | j in e' ensures e'[j] == u[j] {
      if j != k {
        assert fields[k := v][j] == fields[j];
      }
    }
    assert e' == u;
  }

  lemma StringEntrySize(k: string, s: string)
    ensures EntrySize(k, Str(s)) == StringBytes(k) + 3 + CharsBytes(s)
  {
  }

  /**
   * Giving a field that holds a string another string changes the object's
   * text by the difference of the two, whatever the other fields are.
   */
  lemma ShorterField(fields: map<string, Value>, k: string, a: string, b: string)
    requires k in fields && fields[k] == Str(a)
    ensures TextBytes(Obj(fields[k := Str(b)])) + CharsBytes(a) == TextBytes(Obj(fields)) + CharsBytes(b)
  {
    var e, e' := EntryBytes(fields), EntryBytes(fields[k := Str(b)]);
    var n := EntrySize(k, Str(b));
    EntryReplaced(fields, k, Str(b));
    assert k in e && e[k] == EntrySize(k, Str(a));
    SumReplaces(e, k, n);
    StringEntrySize(k, a);
    StringEntrySize(k, b);
    assert |e'| == |e|;
    assert TextBytes(Obj(fields)) == 2 + Commas(|e|) + SumOf(e);
    assert TextBytes(Obj(fields[k := Str(b)])) == 2 + Commas(|e'|) + SumOf(e');
  }
}
