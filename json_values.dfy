/** Decoded JSON documents, as the Python code sees them after `json.loads`. */
module JsonValues {
  import opened Wrappers

  /** Integers are exact; a floating-point literal is kept as the real number it denotes. */
  datatype Json =
    | JNull
    | JBool(b: bool)
    | JInt(i: int)
    | JReal(r: real)
    | JStr(s: string)
    | JArr(items: seq<Json>)
    | JObj(fields: map<string, Json>)

  /** Python truthiness of a decoded value: `bool(x)`. */
  predicate Truthy(j: Json)
  {
    match j
    case JNull => false
    case JBool(b) => b
    case JInt(i) => i != 0
    case JReal(r) => r != 0.0
    case JStr(s) => s != ""
    case JArr(items) => |items| > 0
    case JObj(fields) => |fields| > 0
  }

  /** `d.get(k)` on a dictionary: `None` (here `JNull`) when the key is absent. */
  function Get(d: map<string, Json>, k: string): Json
  {
    if k in d then d[k] else JNull
  }

  /** `d[k]` on a dictionary: `KeyError` when the key is absent. */
  function Index(d: map<string, Json>, k: string): Result<Json>
  {
    if k in d then Ok(d[k]) else Err(KeyError)
  }

  /** `x[k]` with a string key: `KeyError` for a missing key, `TypeError` on a non-dictionary. */
  function Subscript(x: Json, k: string): (r: Result<Json>)
    ensures r.Ok? <==> x.JObj? && k in x.fields
    ensures r.Ok? ==> r.value == x.fields[k]
    ensures r.Err? ==> r.error == (if x.JObj? then KeyError else TypeError)
  {
    match x
    case JObj(fields) => Index(fields, k)
    case _ => Err(TypeError)
  }

  /** Whether a decoded value can be a dictionary key: lists and dictionaries are unhashable. */
  predicate Hashable(j: Json)
  {
    !j.JArr? && !j.JObj?
  }

  /** A looked-up value used as a dictionary key: `TypeError` when it is unhashable. */
  function AsKey(v: Result<Json>): (r: Result<Json>)
    ensures r.Ok? <==> v.Ok? && Hashable(v.value)
    ensures r.Ok? ==> r.value == v.value
    ensures v.Ok? && !Hashable(v.value) ==> r == Err(TypeError)
  {
    if v.Err? then v else if !Hashable(v.value) then Err(TypeError) else v
  }

  /** A Python `str` or `None`, as JSON. */
  function OptStr(s: Option<string>): Json
  {
    if s.Some? then JStr(s.value) else JNull
  }

  /** A list of strings, as JSON. */
  function StrList(xs: seq<string>): (j: Json)
    ensures j.JArr? && |j.items| == |xs|
    ensures forall i :: 0 <= i < |xs| ==> j.items[i] == JStr(xs[i])
  {
    JArr(seq(|xs|, i requires 0 <= i < |xs| => JStr(xs[i])))
  }
}
