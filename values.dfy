/** The dynamically typed values that flow through the backend: decoded JSON,
    database cells and dictionary entries, with Python's truthiness. */
module Values {

  /** `Temporal` is a date or datetime cell, held as the text its `isoformat()`
      returns; it is the only kind of value with an `isoformat` method. */
  datatype Value =
    | Null
    | Bool(b: bool)
    | Int(i: int)
    | Num(r: real)
    | Str(s: string)
    | Temporal(iso: string)
    | Arr(items: seq<Value>)
    | Obj(fields: map<string, Value>)

  /** `bool(v)` */
  predicate Truthy(v: Value) {
    match v
    case Null => false
    case Bool(b) => b
    case Int(i) => i != 0
    case Num(r) => r != 0.0
    case Str(s) => s != []
    case Temporal(_) => true
    case Arr(xs) => xs != []
    case Obj(m) => m != map[]
  }

  /** Python's `a or b`: `a` when it is truthy, otherwise `b` (not `None`). */
  function Or(a: Value, b: Value): (r: Value)
    ensures r == a || r == b
    ensures Truthy(r) <==> Truthy(a) || Truthy(b)
  {
    if Truthy(a) then a else b
  }

  /** `d.get(k, default)` */
  function Get(d: map<string, Value>, k: string, default: Value): (r: Value)
    ensures k in d ==> r == d[k]
    ensures k !in d ==> r == default
  {
    if k in d then d[k] else default
  }

  /** `type(v).__name__` */
  function TypeName(v: Value): string {
    match v
    case Null => "NoneType"
    case Bool(_) => "bool"
    case Int(_) => "int"
    case Num(_) => "float"
    case Str(_) => "str"
    case Temporal(_) => "datetime"
    case Arr(_) => "list"
    case Obj(_) => "dict"
  }

  /** The message of the `AttributeError` raised by `v.attr` when `v` lacks it. */
  function NoAttributeMessage(v: Value, attr: string): string {
    "'" + TypeName(v) + "' object has no attribute '" + attr + "'"
  }
}
