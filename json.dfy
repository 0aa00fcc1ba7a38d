/** Decoded JSON values, the loosely typed dictionaries that the pipeline passes
    between its stages, and the few Python operations on them that it uses. */
module JsonValue {

  /** A JSON value as `json.loads` returns it. Numbers are integers only. */
  datatype Json =
    | Null
    | Bool(b: bool)
    | Int(i: int)
    | Str(s: string)
    | Arr(items: seq<Json>)
    | Obj(fields: map<string, Json>)

  /** `d.get(k)`: the value stored under `k`, or `None` when the key is absent. */
  function Get(m: map<string, Json>, k: string): Json {
    if k in m then m[k] else Null
  }

  /** Python truthiness: `None`, `False`, `0`, `""`, `[]` and `{}` are false. */
  predicate Truthy(j: Json) {
    match j
    case Null => false
    case Bool(b) => b
    case Int(i) => i != 0
    case Str(s) => s != []
    case Arr(xs) => xs != []
    case Obj(m) => m != map[]
  }

  /** Values for which `(v or "").lower()` is defined: falsy values and strings. */
  predicate TextOrFalsy(j: Json) {
    !Truthy(j) || j.Str?
  }

  /** `v or ""` for a value that is falsy or a string. */
  function TextOr(j: Json): (r: string)
    requires TextOrFalsy(j)
    ensures Truthy(j) ==> j == Str(r)
    ensures !Truthy(j) ==> r == ""
  {
    if Truthy(j) then j.s else ""
  }

  /** `isinstance(v, (int, float))` on the values modelled here; `bool` is a
      subclass of `int` in Python. */
  predicate Numeric(j: Json) {
    j.Int? || j.Bool?
  }

  /** The arithmetic value Python uses for an `int` or a `bool`. */
  function NumValue(j: Json): (r: int)
    requires Numeric(j)
    ensures j.Int? ==> r == j.i
    ensures j.Bool? ==> r == (if j.b then 1 else 0)
  {
    if j.Int? then j.i else if j.b then 1 else 0
  }

  /** A mutable Python dictionary: its methods reassign the entry map in place. */
  class Dict {
    var fields: map<string, Json>

    constructor (m: map<string, Json>)
      ensures fields == m
    {
      fields := m;
    }

    /** `d[k] = v`. */
    method Set(k: string, v: Json)
      modifies this
      ensures fields == old(fields)[k := v]
    {
      fields := fields[k := v];
    }
  }
}
