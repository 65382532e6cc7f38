/** The values the tool passes around: what a sampler answers (`Val`) and the
    JSON tree a configuration file decodes to (`Json`). */
module Values {
  import opened Wrappers
  import opened PyStr

  /** A categorical choice: the JSON scalars a flag or environment domain lists. */
  datatype Val = B(b: bool) | I(i: int) | S(s: string)

  /** Python truthiness of a choice. */
  predicate Truthy(v: Val) {
    match v
    case B(b) => b
    case I(i) => i != 0
    case S(s) => s != ""
  }

  /** The integer Python sees in a bool or an int (`True == 1`). */
  function AsInt(v: Val): Option<int> {
    match v
    case B(b) => Some(if b then 1 else 0)
    case I(i) => Some(i)
    case S(_) => None
  }

  /** Python `==` between choices: strings equal strings, and bools compare
      as the integers 0 and 1. */
  predicate PyEq(a: Val, b: Val) {
    if a.S? || b.S? then a == b else AsInt(a) == AsInt(b)
  }

  /** `str(v)`, which is also what an f-string renders. */
  function ToStr(v: Val): string {
    match v
    case B(b) => if b then "True" else "False"
    case I(i) => IntToDecimal(i)
    case S(s) => s
  }

  /** The choice `S(x)` for every string `x` of a list. */
  function Strs(xs: seq<string>): (r: seq<Val>)
    ensures |r| == |xs|
    ensures forall i | 0 <= i < |xs| :: r[i] == S(xs[i])
    ensures forall v | v in r :: v.S? && v.s in xs
  {
    if xs == [] then [] else [S(xs[0])] + Strs(xs[1..])
  }

  /** A decoded JSON document. `JInt` is a number written without fraction or
      exponent (a Python `int`), `JNum` any other number (a Python `float`);
      an object keeps its members in document order. */
  datatype Json =
    | JNull
    | JBool(b: bool)
    | JInt(i: int)
    | JNum(r: real)
    | JStr(s: string)
    | JList(items: seq<Json>)
    | JObj(members: seq<(string, Json)>)

  /** Python truthiness of a decoded JSON value. */
  predicate JTruthy(j: Json) {
    match j
    case JNull => false
    case JBool(b) => b
    case JInt(i) => i != 0
    case JNum(r) => r != 0.0
    case JStr(s) => s != ""
    case JList(xs) => xs != []
    case JObj(ms) => ms != []
  }

  /** The Python type name of a decoded JSON value, as error messages show it. */
  function TypeName(j: Json): string {
    match j
    case JNull => "NoneType"
    case JBool(_) => "bool"
    case JInt(_) => "int"
    case JNum(_) => "float"
    case JStr(_) => "str"
    case JList(_) => "list"
    case JObj(_) => "dict"
  }

  /** The keys of an object's members, in document order and with any
      repeats. */
  function Keys(ms: seq<(string, Json)>): (r: seq<string>)
    ensures |r| == |ms|
    ensures forall i | 0 <= i < |ms| :: r[i] == ms[i].0
  {
    if ms == [] then [] else Keys(ms[..|ms| - 1]) + [ms[|ms| - 1].0]
  }

  /** No key is repeated. */
  predicate UniqueKeys(ms: seq<(string, Json)>) {
    forall i, j | 0 <= i < j < |ms| :: ms[i].0 != ms[j].0
  }

  /** `d.get(key)` on the dict `json.load` builds from an object's members:
      when a key is repeated, its last member wins. */
  function Lookup(ms: seq<(string, Json)>, key: string): (r: Option<Json>)
    ensures r.Some? <==> key in Keys(ms)
    ensures r.Some? ==> (key, r.value) in ms
  {
    if ms == [] then None
    else if ms[|ms| - 1].0 == key then Some(ms[|ms| - 1].1)
    else Lookup(ms[..|ms| - 1], key)
  }

  /** The member a key reads is its last one. */
  lemma {:induction false} LookupLast(ms: seq<(string, Json)>, i: nat)
    requires i < |ms|
    requires forall j | i < j < |ms| :: ms[j].0 != ms[i].0
    ensures Lookup(ms, ms[i].0) == Some(ms[i].1)
  {
    if i < |ms| - 1 {
      var front := ms[..|ms| - 1];
      assert front[i] == ms[i];
      LookupLast(front, i);
    }
  }

  /** The keys of the dict `json.load` builds from an object's members: each
      key once, in the order of its first appearance. */
  function DictKeys(ms: seq<(string, Json)>): (r: seq<string>)
    ensures forall i, j | 0 <= i < j < |r| :: r[i] != r[j]
    ensures forall k :: k in r <==> k in Keys(ms)
  {
    if ms == [] then []
    else
      var front := DictKeys(ms[..|ms| - 1]);
      assert Keys(ms) == Keys(ms[..|ms| - 1]) + [ms[|ms| - 1].0];
      if ms[|ms| - 1].0 in front then front else front + [ms[|ms| - 1].0]
  }

  /** The items of the dict `json.load` builds from an object's members:
      each key once, where it first appears, with its last value. */
  function Entries(ms: seq<(string, Json)>): (r: seq<(string, Json)>)
    ensures UniqueKeys(r)
    ensures forall k :: k in Keys(r) <==> k in Keys(ms)
    ensures forall i | 0 <= i < |r| :: Lookup(ms, r[i].0) == Some(r[i].1)
    ensures r == [] <==> ms == []
  {
    var ks := DictKeys(ms);
    var r := seq(|ks|, i requires 0 <= i < |ks| => (ks[i], Lookup(ms, ks[i]).value));
    assert Keys(r) == ks;
    assert ms != [] ==> ms[0].0 in Keys(ms);
    r
  }

  /** Without repeated keys, the dict holds the members as written. */
  lemma EntriesOfUnique(ms: seq<(string, Json)>)
    requires UniqueKeys(ms)
    ensures Entries(ms) == ms
  {
    DictKeysOfUnique(ms);
    forall i | 0 <= i < |ms| ensures Lookup(ms, ms[i].0) == Some(ms[i].1) {
      LookupLast(ms, i);
    }
  }

  lemma {:induction false} DictKeysOfUnique(ms: seq<(string, Json)>)
    requires UniqueKeys(ms)
    ensures DictKeys(ms) == Keys(ms)
  {
    if ms != [] {
      var front := ms[..|ms| - 1];
      DictKeysOfUnique(front);
      assert ms[|ms| - 1].0 !in Keys(front);
    }
  }

  /** `d.get(key, default)` on the members of a JSON object. */
  function Get(ms: seq<(string, Json)>, key: string, default: Json): Json {
    Lookup(ms, key).GetOr(default)
  }

  /** The choice a JSON scalar stands for; other values are not choices. */
  function ToVal(j: Json): Option<Val> {
    match j
    case JBool(b) => Some(B(b))
    case JInt(i) => Some(I(i))
    case JStr(s) => Some(S(s))
    case _ => None
  }
}
