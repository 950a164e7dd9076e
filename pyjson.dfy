/**
 * The values that a decoded JSON line can hold, and the few pieces of
 * Python's object semantics that the bridge's handlers depend on:
 * `dict.get` with a default, truthiness (`bool(x)`, `if x`), equality and
 * hashing of a value against an integer key (where `False == 0` and
 * `True == 1`), and which values cannot be hashed at all.
 * Floating-point numbers are not part of this model.
 */
module PyJson {
  import opened Options

  datatype Json =
    | JNull
    | JBool(b: bool)
    | JInt(i: int)
    | JStr(s: string)
    | JList(items: seq<Json>)
    | JObject(fields: map<string, Json>)

  /** `d.get(key, default)` on a Python dict. */
  function Get(fields: map<string, Json>, key: string, default: Json): (v: Json)
    ensures key in fields ==> v == fields[key]
    ensures key !in fields ==> v == default
  {
    if key in fields then fields[key] else default
  }

  /**
   * The integer a value is equal to under Python's `==`, and hashes like:
   * an int is itself and a bool is 0 or 1. Every other value equals no int.
   */
  function IntValue(v: Json): (r: Option<int>)
    ensures r.Some? <==> (v.JInt? || v.JBool?)
    ensures v.JInt? ==> r == Some(v.i)
    ensures v.JBool? ==> r == Some(if v.b then 1 else 0)
  {
    match v
    case JInt(i) => Some(i)
    case JBool(b) => Some(if b then 1 else 0)
    case _ => None
  }

  /** Python's `v == n` for an int literal `n`. */
  predicate EqualsInt(v: Json, n: int)
  {
    IntValue(v) == Some(n)
  }

  /** Lists and dicts are unhashable: using one as a dict key raises TypeError. */
  predicate Hashable(v: Json)
  {
    !v.JList? && !v.JObject?
  }

  /** Python's `bool(v)`. */
  predicate Truthy(v: Json)
  {
    match v
    case JNull => false
    case JBool(b) => b
    case JInt(i) => i != 0
    case JStr(s) => s != ""
    case JList(items) => items != []
    case JObject(fields) => fields != map[]
  }
}
