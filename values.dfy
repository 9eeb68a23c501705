/**
 * The values the Python code keeps in document metadata and in the loaded
 * patch-note JSON, and Python's `str()` of a metadata value.
 */
module Values {
  import opened Text

  /** A scalar as Python holds it after `json.load` (floats other than `nan` are not modelled). */
  datatype Scalar = Null | Bool(b: bool) | Int(i: int) | NaN | Str(s: string)

  /** A JSON tree: scalars at the leaves, lists, and objects (Python dicts). */
  datatype Json = Leaf(v: Scalar) | List(items: seq<Json>) | Obj(fields: map<string, Json>)

  /** Document metadata: a dict from keys to scalar values. */
  type Metadata = map<string, Scalar>

  /** Python's `str(v)`. */
  function PyStr(v: Scalar): string {
    match v
    case Null => "None"
    case Bool(b) => if b then "True" else "False"
    case Int(i) => IntToString(i)
    case NaN => "nan"
    case Str(s) => s
  }

  /** A JSON string leaf. */
  function JStr(s: string): Json {
    Leaf(Str(s))
  }

  /** The items of a JSON list; any other value has none. */
  /** Python's `bool(j)` is false: `None`, `False`, `0`, `""`, `[]` or `{}` (`nan` is true). */
  predicate IsFalsy(j: Json) {
    j == Leaf(Null) || j == Leaf(Bool(false)) || j == Leaf(Int(0)) || j == Leaf(Str(""))
    || j == List([]) || j == Obj(map[])
  }

  function ItemsOf(j: Json): seq<Json> {
    if j.List? then j.items else []
  }
}
