/**
  The values `yaml.safe_load` hands back, as far as the commands look at
  them, and the few Python operations the commands apply to those values:
  truthiness, `dict.get`, `len()` and `str()`.
 */
module Yaml {
  import opened Wrappers
  import opened PyStr

  /** A loaded YAML document: scalars, lists and string-keyed mappings. */
  datatype Value =
    | Null
    | Bool(b: bool)
    | Int(i: int)
    | Str(s: string)
    | Date(year: nat, month: nat, day: nat)
    | List(items: seq<Value>)
    | Map(entries: map<string, Value>)

  /**
    `yaml.safe_load`: `None` stands for a `YAMLError`. The loader is a
    parameter of every operation that parses, so the model relies on nothing about it.
   */
  type Loader = string -> Option<Value>

  /** Python's `{}`. */
  const EmptyMap: Value := Map(map[])

  /** `bool(v)` in Python. */
  predicate Truthy(v: Value) {
    match v
    case Null => false
    case Bool(b) => b
    case Int(i) => i != 0
    case Str(s) => |s| > 0
    case Date(_, _, _) => true
    case List(xs) => |xs| > 0
    case Map(m) => |m| > 0
  }

  /** `v or {}`: every falsy value becomes the empty mapping. */
  function OrEmpty(v: Value): Value {
    if Truthy(v) then v else EmptyMap
  }

  /** `d.get(key, default)`: the stored value, even a null one, when the key is present. */
  function Get(d: map<string, Value>, key: string, default: Value): Value {
    if key in d then d[key] else default
  }

  /** `len(v)`; `None` where Python raises `TypeError` (null, numbers, booleans, dates). */
  function PyLen(v: Value): (n: Option<nat>)
    ensures n.Some? <==> (v.Str? || v.List? || v.Map?)
  {
    match v
    case Str(s) => Some(|s|)
    case List(xs) => Some(|xs|)
    case Map(m) => Some(|m|)
    case _ => None
  }

  /**
    `str(v)` for a scalar. A list or mapping prints as its `repr`, which
    starts with `[` or `{`; those are `None` here, and no code that uses
    `StrOf` looks further than that first character.
   */
  function StrOf(v: Value): Option<string> {
    match v
    case Null => Some("None")
    case Bool(b) => Some(if b then "True" else "False")
    case Int(i) => Some(IntToDecimal(i))
    case Str(s) => Some(s)
    case Date(y, m, d) =>
      Some(ZeroPad(NatToDecimal(y), 4) + "-" + ZeroPad(NatToDecimal(m), 2) + "-" + ZeroPad(NatToDecimal(d), 2))
    case List(_) => None
    case Map(_) => None
  }

  /** `OrEmpty` never yields a falsy non-mapping: what it yields is the empty mapping or truthy. */
  lemma OrEmptyShape(v: Value)
    ensures OrEmpty(v) == EmptyMap || (Truthy(OrEmpty(v)) && OrEmpty(v) == v)
  {
  }
}
