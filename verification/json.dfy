/**
  A request body as the web framework hands it to the handler after JSON parsing:
  the Python value `request.get_json()` returns. JSON integers become Python `int`,
  numbers with a fraction or exponent become `float`, objects become `dict`.
 */
module Json {
  datatype Value =
    | Null
    | Bool(b: bool)
    | Int(i: int)
    | Float(f: real)
    | Str(s: string)
    | Array(elems: seq<Value>)
    | Object(fields: map<string, Value>)

  /** Python truthiness: `None`, `False`, zero, and empty strings, lists and dicts are falsy. */
  predicate Truthy(v: Value)
  {
    match v
    case Null => false
    case Bool(b) => b
    case Int(i) => i != 0
    case Float(f) => f != 0.0
    case Str(s) => s != []
    case Array(a) => a != []
    case Object(m) => m != map[]
  }

  /** The falsy parsed values are exactly `null`, `false`, `0`, `0.0`, `""`, `[]`
      and `{}`. */
  lemma FalsyValues(v: Value)
    ensures !Truthy(v) <==>
      v == Null || v == Bool(false) || v == Int(0) || v == Float(0.0)
      || v == Str("") || v == Array([]) || v == Object(map[])
  {
  }

  /** The Python type name of the parsed value, as it appears in exception messages. */
  function TypeName(v: Value): string
  {
    match v
    case Null => "NoneType"
    case Bool(_) => "bool"
    case Int(_) => "int"
    case Float(_) => "float"
    case Str(_) => "str"
    case Array(_) => "list"
    case Object(_) => "dict"
  }

  /** Lists and dicts cannot be used as dictionary keys in Python; every other parsed value can. */
  predicate Hashable(v: Value)
  {
    !v.Array? && !v.Object?
  }

  /** `d.get(key, default)` on a dict. */
  function Get(fields: map<string, Value>, key: string, default: Value): Value
  {
    if key in fields then fields[key] else default
  }
}
