/** The few JavaScript value rules the handlers depend on: a request field may be
    `undefined`, `null` or a value, and numeric query parameters are read with
    `parseInt` and defaulted with `||`. */
module JsModel {
  import opened Base

  /** A property of a request body or database row. */
  datatype Field<+T> = Undefined | Null | Value(v: T)

  /** A query-string or body parameter meant as an integer: absent (`undefined`),
      text that reads as the integer `n` under both `parseInt` and `Number`, or text
      that reads as `NaN` under both (such as "abc"). */
  datatype Param = Absent | IntText(n: int) | Junk

  /** A default that applies only to `undefined` (destructuring defaults,
      `val === undefined ? fallback : val`): `null` and falsy values pass through. */
  function Default<T>(f: Field<T>, d: T): (r: Field<T>)
    ensures r == Value(d) <==> f.Undefined? || f == Value(d)
    ensures !r.Undefined?
    ensures !f.Undefined? ==> r == f
  {
    if f.Undefined? then Value(d) else f
  }

  /** A field bound as a statement parameter: `undefined` and `null` become SQL NULL. */
  function Bound<T>(f: Field<T>): (r: Option<T>)
    ensures r.Some? <==> f.Value?
    ensures r.Some? ==> r.value == f.v
  {
    match f
    case Value(v) => Some(v)
    case _ => None
  }

  /** `parseInt(p)`: `None` stands for `NaN`. */
  function ParseInt(p: Param): (r: Option<int>)
    ensures r.Some? <==> p.IntText?
  {
    match p
    case IntText(n) => Some(n)
    case _ => None
  }

  /** `parseInt(p) || d`: `NaN` and `0` are falsy, so both give the default. */
  function IntOr(p: Param, d: int): (r: int)
    ensures r == d <==> (p.IntText? ==> p.n == 0 || p.n == d)
    ensures r != d ==> p.IntText? && r == p.n
  {
    match ParseInt(p)
    case Some(n) => if n != 0 then n else d
    case None => d
  }

  /** Truthiness of an optional string: present and non-empty. */
  predicate TruthyText(s: Option<string>)
  {
    s.Some? && s.value != ""
  }

  /** A JavaScript value, as far as truthiness and `Object.keys` see it: an object
      is given by its own enumerable keys, an array by its length. */
  datatype JsValue = JUndefined | JNull | JBool(b: bool) | JNumber(n: int) | JString(s: string)
                   | JObject(keys: seq<string>) | JArray(length: nat)

  predicate Falsy(v: JsValue)
  {
    v.JUndefined? || v.JNull? || v == JBool(false) || v == JNumber(0) || v == JString("")
  }

  /** `Object.keys(v).length` (which throws for null and undefined; callers test for
      those first). */
  function KeyCount(v: JsValue): nat
  {
    match v
    case JString(s) => |s|
    case JObject(keys) => |keys|
    case JArray(n) => n
    case _ => 0
  }
}
