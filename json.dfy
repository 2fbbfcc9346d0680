/**
 * The JSON-like values a GraphQL response carries, and the few JavaScript
 * operations on them that the exchange relies on: truthiness, `typeof`,
 * property lookup and the string conversion done by a template literal.
 *
 * Numbers are integers here; floating point is not modelled.
 */
module Json {
  import opened Wrappers

  /** An object keeps its properties in order: `Object.keys` visits them in that order. */
  datatype Json =
    | JNull
    | JBool(b: bool)
    | JNum(n: int)
    | JStr(s: string)
    | JArr(items: seq<Json>)
    | JObj(fields: seq<(string, Json)>)

  /** JavaScript truthiness; an absent property (`undefined`) is falsy. */
  predicate Truthy(v: Option<Json>) {
    match v
    case None => false
    case Some(JNull) => false
    case Some(JBool(b)) => b
    case Some(JNum(n)) => n != 0
    case Some(JStr(s)) => s != ""
    case Some(_) => true
  }

  /** `typeof v === 'object'`, which holds of `null` as well as of arrays and objects. */
  predicate IsObjectType(j: Json) {
    j.JNull? || j.JArr? || j.JObj?
  }

  /**
   * `v[name]` on an object whose properties are `fields`. A JavaScript object
   * holds each name at most once; on a list that repeats one, the first wins.
   */
  function Lookup(fields: seq<(string, Json)>, name: string): (r: Option<Json>)
    ensures r.Some? <==> exists i :: 0 <= i < |fields| && fields[i].0 == name
    ensures r.Some? ==> exists i ::
      && 0 <= i < |fields| && fields[i] == (name, r.value)
      && forall k :: 0 <= k < i ==> fields[k].0 != name
  {
    if fields == [] then None
    else if fields[0].0 == name then Some(fields[0].1)
    else
      var r := Lookup(fields[1..], name);
      assert forall i :: 0 <= i < |fields[1..]| ==> fields[1..][i] == fields[i + 1];
      r
  }

  /** `v.name` on any value that is not `null`: only objects have named properties here. */
  function Get(j: Json, name: string): Option<Json> {
    if j.JObj? then Lookup(j.fields, name) else None
  }

  /** Number of children: array elements, or object property values. */
  function Arity(j: Json): nat {
    match j
    case JArr(items) => |items|
    case JObj(fields) => |fields|
    case _ => 0
  }

  /** The `i`-th child, in the order `Object.keys` lists them. */
  function Child(j: Json, i: nat): Json
    requires i < Arity(j)
  {
    match j
    case JArr(items) => items[i]
    case JObj(fields) => fields[i].1
  }

  function DigitChar(d: nat): char
    requires d < 10
  {
    "0123456789"[d]
  }

  function NatToString(n: nat): (s: string)
    ensures s != []
  {
    if n < 10 then [DigitChar(n)] else NatToString(n / 10) + [DigitChar(n % 10)]
  }

  /** Decimal notation of a JavaScript integer number. */
  function IntToString(n: int): string {
    if n < 0 then "-" + NatToString(-n) else NatToString(n)
  }

  /**
   * `${v}`: strings as they are, numbers in decimal, objects as
   * "[object Object]", arrays as their elements joined by commas (with
   * `null` elements written as nothing), as `Array.prototype.join` does.
   */
  function ToStr(j: Json): string
    decreases j, 1
  {
    match j
    case JNull => "null"
    case JBool(b) => if b then "true" else "false"
    case JNum(n) => IntToString(n)
    case JStr(s) => s
    case JObj(_) => "[object Object]"
    case JArr(items) => JoinItems(j, |items|)
  }

  /** The first `n` elements of the array `j`, joined by commas. */
  function JoinItems(j: Json, n: nat): string
    requires j.JArr? && n <= |j.items|
    decreases j, 0, n
  {
    if n == 0 then ""
    else
      var last := if j.items[n - 1].JNull? then "" else ToStr(j.items[n - 1]);
      if n == 1 then last else JoinItems(j, n - 1) + "," + last
  }
}
