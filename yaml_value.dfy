/** The structured values a YAML document loads into, and the Python
    operations the core applies to them. The loader and dumper themselves
    are a `Codec` given from outside. */
module Yaml {
  import opened Common
  import opened Text

  /** A loaded YAML value: `None`, a number, a string, a list or a mapping
      with string keys. */
  datatype Value =
    | Null
    | Num(n: real)
    | Str(s: string)
    | List(items: seq<Value>)
    | Mapping(entries: map<string, Value>)

  /** The YAML loader (which may reject the text) and the dumper. */
  datatype Codec = Codec(parse: string -> Result<Value>, serialize: Value -> string)

  /** `v[key]` with a string key: only a mapping holding `key` answers. */
  function Lookup(v: Value, key: string): Result<Value>
  {
    match v
    case Mapping(m) => if key in m then Ok(m[key]) else Err(KeyError(key))
    case _ => Err(TypeError)
  }

  /** `v[key] = x` with a string key: only a mapping accepts it. */
  function Store(v: Value, key: string, x: Value): Result<Value>
  {
    match v
    case Mapping(m) => Ok(Mapping(m[key := x]))
    case _ => Err(TypeError)
  }

  /** `t` occurs somewhere inside `s`. */
  predicate IsInfix(t: string, s: string)
    decreases |s|
  {
    StartsWith(s, t) || (|s| > 0 && IsInfix(t, s[1..]))
  }

  /** `text in v`: key membership for a mapping, element membership for a
      list, substring test for a string; numbers and `None` raise. */
  function ContainsText(v: Value, text: string): Result<bool>
  {
    match v
    case Mapping(m) => Ok(text in m)
    case List(items) => Ok(Str(text) in items)
    case Str(s) => Ok(IsInfix(text, s))
    case _ => Err(TypeError)
  }
}
