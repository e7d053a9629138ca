/**
 JavaScript values as the application sees them after `JSON.parse` or in a request
 body, together with the three JavaScript operators the code leans on: truthiness
 (`!x`, `x || y`), nullish coalescing (`x ?? y`) and optional member access (`x?.[k]`).
 */
module JsValue {
  import opened Options

  /** A JSON-like JavaScript value. Numbers are modelled by their integer value. */
  datatype Json =
    | Undefined
    | Null
    | Bool(b: bool)
    | Num(n: int)
    | Str(s: string)
    | Arr(items: seq<Json>)
    | Obj(fields: map<string, Json>)

  /** The outcome of `JSON.parse`: a value, or the thrown `SyntaxError`'s message. */
  datatype Parsed = Parsed(value: Json) | SyntaxError(message: string)

  /** `JSON.parse` itself is a foreign function; every operation that parses takes it as
      a parameter of this type. */
  type Parser = string -> Parsed

  /** JavaScript truthiness: `undefined`, `null`, `false`, `0` and `""` are falsy. */
  predicate Truthy(v: Json)
  {
    match v
    case Undefined => false
    case Null => false
    case Bool(b) => b
    case Num(n) => n != 0
    case Str(s) => s != ""
    case Arr(_) => true
    case Obj(_) => true
  }

  predicate Nullish(v: Json)
  {
    v.Undefined? || v.Null?
  }

  /** `a ?? b` */
  function Coalesce(a: Json, b: Json): Json
  {
    if Nullish(a) then b else a
  }

  /** `a || b` */
  function Or(a: Json, b: Json): Json
  {
    if Truthy(a) then a else b
  }

  /** `v[k]` on a value that is not null or undefined. Only objects have own members
      here; the keys the application reads are never built-in members of strings,
      numbers or arrays, for which JavaScript also answers `undefined`. */
  function Member(v: Json, k: string): Json
    requires !Nullish(v)
  {
    match v
    case Obj(fields) => if k in fields then fields[k] else Undefined
    case _ => Undefined
  }

  /** `v?.[k]`: `undefined` when `v` is null or undefined, otherwise `v[k]`. */
  function OptMember(v: Json, k: string): Json
  {
    if Nullish(v) then Undefined else Member(v, k)
  }

  /** `v?.[p0]?.[p1]...` along a path of keys. */
  function Lookup(v: Json, path: seq<string>): (r: Json)
    ensures Nullish(v) && |path| > 0 ==> r == Undefined
    decreases |path|
  {
    if |path| == 0 then v else Lookup(OptMember(v, path[0]), path[1..])
  }

  lemma LookupOne(v: Json, a: string)
    ensures Lookup(v, [a]) == OptMember(v, a)
  {
    assert [a][1..] == [];
  }

  lemma LookupTwo(v: Json, a: string, b: string)
    ensures Lookup(v, [a, b]) == OptMember(OptMember(v, a), b)
  {
    assert [a, b][1..] == [b];
    LookupOne(OptMember(v, a), b);
  }

  lemma LookupThree(v: Json, a: string, b: string, c: string)
    ensures Lookup(v, [a, b, c]) == OptMember(OptMember(OptMember(v, a), b), c)
  {
    assert [a, b, c][1..] == [b, c];
    LookupTwo(OptMember(v, a), b, c);
  }
}
