/** JSON/YAML values as Python sees them after json.load or yaml.safe_load.
    Floating-point numbers are not part of this model. */
module Json {
  import opened Text

  datatype Value =
    | Null
    | Bool(b: bool)
    | Int(i: int)
    | Str(s: string)
    | Arr(items: seq<Value>)
    | Obj(fields: map<string, Value>)

  /** bool(v) */
  predicate Truthy(v: Value) {
    match v
    case Null => false
    case Bool(b) => b
    case Int(i) => i != 0
    case Str(s) => s != ""
    case Arr(xs) => |xs| > 0
    case Obj(m) => |m| > 0
  }

  /** isinstance(v, int); a Python bool is an int. */
  predicate IsPyInt(v: Value) {
    v.Int? || v.Bool?
  }

  function PyIntValue(v: Value): int
    requires IsPyInt(v)
  {
    if v.Int? then v.i else if v.b then 1 else 0
  }

  /** isinstance(v, (str, int, float, bool)) over the values of this model. */
  predicate IsScalar(v: Value) {
    v.Str? || v.Int? || v.Bool?
  }

  /** str(v) for a scalar. */
  function ScalarText(v: Value): string
    requires IsScalar(v)
  {
    match v
    case Str(s) => s
    case Int(i) => IntToString(i)
    case Bool(b) => if b then "True" else "False"
  }

  /** dict.get(key): None when the key is absent. */
  function Get(m: map<string, Value>, key: string): Value {
    if key in m then m[key] else Null
  }

  /** `d.get(key) is not None` */
  predicate HasValue(m: map<string, Value>, key: string) {
    key in m && m[key] != Null
  }
}
