/** The JSON-shaped values the engine receives from the language model and
    reads back from storage, and Python's `float()` on them. */
module Values {
  import opened Wrappers
  import opened Dicts

  datatype Value =
    | Null
    | Bool(b: bool)
    | Int(i: int)
    | Float(x: real)
    | Text(s: string)
    | Arr(items: seq<Value>)
    | Obj(fields: Dict<string, Value>)

  /** The numeric value of an `int`, `float` or `bool` (Python counts `bool`
      as an `int`). */
  function NumOf(v: Value): Option<real> {
    match v
    case Bool(b) => Some(if b then 1.0 else 0.0)
    case Int(i) => Some(i as real)
    case Float(x) => Some(x)
    case _ => None
  }

  predicate IsNumber(v: Value) {
    v.Bool? || v.Int? || v.Float?
  }

  /** `float(v)`: numbers convert, a string converts as `floatOf` says, and
      anything else raises (`None`).  Python's own parsing of a float
      literal is not modelled, so `floatOf` stands for it. */
  function ToFloat(v: Value, floatOf: string -> Option<real>): (r: Option<real>)
    ensures IsNumber(v) ==> r == NumOf(v)
    ensures (v.Null? || v.Arr? || v.Obj?) ==> r.None?
  {
    match v
    case Text(s) => floatOf(s)
    case _ => NumOf(v)
  }

  /** Usable as a `dict` key: lists and dicts are unhashable, so a lookup
      with one raises `TypeError`. */
  predicate Hashable(v: Value) {
    !(v.Arr? || v.Obj?)
  }

  /** Python truthiness: `None`, `False`, zero, and empty strings, lists
      and dicts are false. */
  predicate Truthy(v: Value) {
    match v
    case Null => false
    case Bool(b) => b
    case Int(i) => i != 0
    case Float(x) => x != 0.0
    case Text(s) => s != ""
    case Arr(items) => items != []
    case Obj(fields) => fields.keys != []
  }
}
