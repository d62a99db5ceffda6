/** The Python values that come back from the database layer and that the
    dashboard inspects: `None`, booleans, integers, strings, lists and
    dictionaries with string keys. */
module Values {

  datatype Option<T> = None | Some(value: T)

  datatype Value =
    | Null
    | Bool(b: bool)
    | Int(i: int)
    | Str(s: string)
    | List(items: seq<Value>)
    | Dict(entries: map<string, Value>)

  /** `d.get(key, default)`. */
  function Get(d: map<string, Value>, key: string, default: Value): (v: Value)
    ensures key in d ==> v == d[key]
    ensures key !in d ==> v == default
  {
    if key in d then d[key] else default
  }

  /** `bool(v)`: `None`, `False`, `0` and empty strings, lists and dicts are false. */
  function Truthy(v: Value): (t: bool)
    ensures !t <==> v == Null || v == Bool(false) || v == Int(0) || v == Str("") || v == List([]) || v == Dict(map[])
  {
    match v
    case Null => false
    case Bool(b) => b
    case Int(i) => i != 0
    case Str(s) => s != ""
    case List(xs) => xs != []
    case Dict(m) => m != map[]
  }

  /** Python's `<` on two strings: code point by code point, a proper prefix first. */
  predicate StrLess(a: string, b: string)
    decreases |a|
  {
    if a == [] then b != []
    else if b == [] then false
    else if a[0] != b[0] then a[0] < b[0]
    else StrLess(a[1..], b[1..])
  }

  /** The integer a number stands for; `True` and `False` are 1 and 0. */
  function AsNumber(v: Value): Option<int> {
    match v
    case Bool(b) => Some(if b then 1 else 0)
    case Int(i) => Some(i)
    case _ => None
  }

  /** Python's `a < b`: `Some` of the answer, or `None` where Python raises `TypeError`. */
  function Less(a: Value, b: Value): (r: Option<bool>)
    ensures a.Int? && b.Int? ==> r == Some(a.i < b.i)
    ensures (a.Null? || b.Null?) ==> r == None
    ensures a.Str? && b.Str? ==> r == Some(StrLess(a.s, b.s))
    ensures (a.Str? && b.Int?) || (a.Int? && b.Str?) ==> r == None
  {
    if AsNumber(a).Some? && AsNumber(b).Some? then Some(AsNumber(a).value < AsNumber(b).value)
    else if a.Str? && b.Str? then Some(StrLess(a.s, b.s))
    else None
  }
}
