/** Decoded JSON/YAML values as the analyser's JavaScript code observes them:
    truthiness, `typeof`, property reads, `Object.keys`/`Object.values`/`Object.entries`
    and `for ... of` iteration. */
module JsValues {
  import opened Outcomes

  /** A decoded value. `Undefined` is what a property read yields for a key that is
      not there. An object keeps its members in insertion order, which is the order
      `Object.keys` reports. */
  datatype Value =
    | Undefined
    | Null
    | Bool(b: bool)
    | Num(n: int)
    | Str(s: string)
    | Arr(elems: seq<Value>)
    | Obj(members: seq<(string, Value)>)

  /** JavaScript truthiness, as tested by `if (v)`, `!v` and `a || b`. */
  predicate Truthy(v: Value) {
    match v
    case Undefined => false
    case Null => false
    case Bool(b) => b
    case Num(n) => n != 0
    case Str(s) => s != ""
    case Arr(_) => true
    case Obj(_) => true
  }

  /** `v === null || v === undefined`: reading a property of such a value throws. */
  predicate Nullish(v: Value) {
    v.Undefined? || v.Null?
  }

  /** `typeof v === 'object'` (true of null and of arrays too). */
  predicate IsObjectType(v: Value) {
    v.Null? || v.Arr? || v.Obj?
  }

  predicate IsDigit(c: char) {
    '0' <= c <= '9'
  }

  predicate AllDigits(k: string) {
    forall j :: 0 <= j < |k| ==> IsDigit(k[j])
  }

  function DigitChar(d: nat): (c: char)
    requires d < 10
    ensures IsDigit(c) && c as int - '0' as int == d
  {
    ('0' as int + d) as char
  }

  /** The decimal spelling of an index, as `Object.keys` reports the indices of an
      array or a string: digits only, no leading zero. */
  function IndexKey(i: nat): (k: string)
    ensures |k| > 0 && AllDigits(k)
    ensures |k| == 1 <==> i < 10
    ensures |k| > 1 ==> k[0] != '0'
  {
    if i < 10 then [DigitChar(i)] else IndexKey(i / 10) + [DigitChar(i % 10)]
  }

  /** The number a string of decimal digits denotes. */
  function DecimalValue(k: string): nat
    requires AllDigits(k)
  {
    if k == [] then 0 else 10 * DecimalValue(k[..|k| - 1]) + (k[|k| - 1] as int - '0' as int)
  }

  /** Reading an index key back gives the index. */
  lemma {:induction false} IndexKeyRoundTrip(i: nat)
    ensures DecimalValue(IndexKey(i)) == i
  {
    if i >= 10 {
      IndexKeyRoundTrip(i / 10);
      var k := IndexKey(i);
      assert k[..|k| - 1] == IndexKey(i / 10);
    }
  }

  /** Distinct indices have distinct keys. */
  lemma IndexKeyInjective(i: nat, j: nat)
    requires IndexKey(i) == IndexKey(j)
    ensures i == j
  {
    IndexKeyRoundTrip(i);
    IndexKeyRoundTrip(j);
  }

  /** The own enumerable properties of a value, in `Object.entries` order:
      the members of an object, the elements of an array and the characters
      of a string under their index keys; numbers and booleans have none. */
  function Entries(v: Value): seq<(string, Value)> {
    match v
    case Obj(ms) => ms
    case Arr(es) => seq(|es|, i requires 0 <= i < |es| => (IndexKey(i), es[i]))
    case Str(s) => seq(|s|, i requires 0 <= i < |s| => (IndexKey(i), Str([s[i]])))
    case _ => []
  }

  /** `Object.keys(v)` */
  function Keys(v: Value): seq<string> {
    seq(|Entries(v)|, i requires 0 <= i < |Entries(v)| => Entries(v)[i].0)
  }

  /** `Object.values(v)` */
  function Values(v: Value): seq<Value> {
    seq(|Entries(v)|, i requires 0 <= i < |Entries(v)| => Entries(v)[i].1)
  }

  /** `i` is the first position of key `k` in `es`. */
  predicate FirstKeyAt(es: seq<(string, Value)>, k: string, i: int) {
    0 <= i < |es| && es[i].0 == k && forall j :: 0 <= j < i ==> es[j].0 != k
  }

  /** The position of the first entry with key `k`, or -1 when there is none. */
  function FindKey(es: seq<(string, Value)>, k: string): (i: int)
    ensures i == -1 || FirstKeyAt(es, k, i)
    ensures i == -1 <==> forall j :: 0 <= j < |es| ==> es[j].0 != k
  {
    if es == [] then -1
    else if es[0].0 == k then 0
    else
      var i := FindKey(es[1..], k);
      if i < 0 then -1 else i + 1
  }

  /** The property read `v[k]` (also `v?.[k]`): the value of the own property `k`,
      or undefined when there is none, which is also what null and undefined give
      under `?.`. */
  function Get(v: Value, k: string): Value {
    Lookup(Entries(v), k)
  }

  /** The value of the first entry with key `k`, or undefined. */
  function Lookup(es: seq<(string, Value)>, k: string): Value {
    if es == [] then Undefined
    else if es[0].0 == k then es[0].1
    else Lookup(es[1..], k)
  }

  /** The lookup yields the entry at the first position of the key. */
  lemma {:induction false} LookupFirst(es: seq<(string, Value)>, k: string)
    ensures Lookup(es, k) == (if FindKey(es, k) < 0 then Undefined else es[FindKey(es, k)].1)
  {
    if es != [] && es[0].0 != k {
      LookupFirst(es[1..], k);
    }
  }

  /** What `for (const x of v)` iterates over: the elements of an array, the
      characters of a string; None where JavaScript throws because the value is
      not iterable. */
  function ForOf(v: Value): Option<seq<Value>> {
    if v.Arr? || v.Str? then Some(Values(v)) else None
  }

  /** No key occurs twice among the own properties of `v`. */
  predicate DistinctKeys(v: Value) {
    forall i, j :: 0 <= i < j < |Entries(v)| ==> Entries(v)[i].0 != Entries(v)[j].0
  }

  /** `for (const k of Object.keys(v)) v[k]`: when no key repeats, reading each
      key in turn yields the values of `Object.values(v)`, in the same order. */
  lemma KeyedReads(v: Value)
    requires DistinctKeys(v)
    ensures forall i :: 0 <= i < |Keys(v)| ==> Get(v, Keys(v)[i]) == Values(v)[i]
  {
    forall i | 0 <= i < |Keys(v)| ensures Get(v, Keys(v)[i]) == Values(v)[i] {
      var es := Entries(v);
      var j := FindKey(es, es[i].0);
      LookupFirst(es, es[i].0);
      assert j == i;
    }
  }

  /** A key that does not start with a digit names no index: only an object can have it. */
  lemma NamedGet(v: Value, k: string)
    requires k != [] && !IsDigit(k[0])
    ensures Get(v, k) != Undefined ==> v.Obj?
  {
    var i := FindKey(Entries(v), k);
    LookupFirst(Entries(v), k);
    if i >= 0 && (v.Arr? || v.Str?) {
      assert false;
    }
  }

  // ---------------------------------------------------------------------------
  // Size and the references a value contains: the termination measure of the
  // schema walk.

  function Sum(xs: seq<nat>): nat {
    if xs == [] then 0 else Sum(xs[..|xs| - 1]) + xs[|xs| - 1]
  }

  lemma {:induction false} SumAtLeastElement(xs: seq<nat>, i: nat)
    requires i < |xs|
    ensures xs[i] <= Sum(xs)
  {
    if i < |xs| - 1 {
      SumAtLeastElement(xs[..|xs| - 1], i);
    }
  }

  /** The number of nodes of a value, counting a string as one node. */
  function Size(v: Value): (n: nat)
    ensures n >= 1
  {
    match v
    case Arr(es) => 1 + Sum(seq(|es|, i requires 0 <= i < |es| => Size(es[i])))
    case Obj(ms) => 1 + Sum(seq(|ms|, i requires 0 <= i < |ms| => Size(ms[i].1)))
    case _ => 1
  }

  /** The `$ref` strings occurring anywhere in a value. */
  function Refs(v: Value): set<string> {
    match v
    case Arr(es) => set i, r | 0 <= i < |es| && r in Refs(es[i]) :: r
    case Obj(ms) =>
      (set i | 0 <= i < |ms| && ms[i].0 == "$ref" && ms[i].1.Str? :: ms[i].1.s)
      + (set i, r | 0 <= i < |ms| && r in Refs(ms[i].1) :: r)
    case _ => {}
  }

  /** An entry of a value is no larger than the value (smaller, unless the value
      is a string) and holds no reference the value does not hold. */
  lemma EntryBound(v: Value, i: nat)
    requires i < |Entries(v)|
    ensures Size(Entries(v)[i].1) <= Size(v)
    ensures (v.Arr? || v.Obj?) ==> Size(Entries(v)[i].1) < Size(v)
    ensures Refs(Entries(v)[i].1) <= Refs(v)
  {
    match v
    case Arr(es) =>
      SumAtLeastElement(seq(|es|, j requires 0 <= j < |es| => Size(es[j])), i);
    case Obj(ms) =>
      SumAtLeastElement(seq(|ms|, j requires 0 <= j < |ms| => Size(ms[j].1)), i);
    case _ =>
  }

  /** A property that does not start with a digit is a strict part of the value. */
  lemma NamedGetBound(v: Value, k: string)
    requires k != [] && !IsDigit(k[0])
    ensures Refs(Get(v, k)) <= Refs(v)
    ensures Get(v, k) != Undefined ==> Size(Get(v, k)) < Size(v)
  {
    NamedGet(v, k);
    var i := FindKey(Entries(v), k);
    LookupFirst(Entries(v), k);
    if i >= 0 {
      EntryBound(v, i);
    }
  }

  /** Any property read yields a part of the value, or undefined. */
  lemma GetBound(v: Value, k: string)
    ensures Refs(Get(v, k)) <= Refs(v)
    ensures Size(Get(v, k)) <= Size(v)
  {
    var i := FindKey(Entries(v), k);
    LookupFirst(Entries(v), k);
    if i >= 0 {
      EntryBound(v, i);
    }
  }

  /** The `$ref` string of a value is one of its references. */
  lemma OwnRef(v: Value, r: string)
    requires Get(v, "$ref") == Str(r)
    ensures r in Refs(v)
  {
    NamedGet(v, "$ref");
    var i := FindKey(Entries(v), "$ref");
    LookupFirst(Entries(v), "$ref");
    assert v.members[i] == ("$ref", Str(r));
  }
}
