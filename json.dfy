/** JSON documents as Python's `json` module produces them (without floating point). */
module Json {
  import opened Wrappers
  import opened Dicts

  /** A parsed JSON value: `None`, `bool`, `int`, `str`, `list`, or a `dict` with ordered keys. */
  datatype Json =
    | Null
    | Bool(b: bool)
    | Int(i: int)
    | Str(s: string)
    | Array(elems: seq<Json>)
    | Object(members: Dict<Json>)
  {
    /** A value with no members or elements to descend into. */
    predicate IsLeaf() {
      !Array? && !Object?
    }
  }

  /** The text codec of Python's `json` module: `json.loads` (which raises on
      malformed text, hence `None`) and `json.dumps` with its default settings. */
  datatype Codec = Codec(loads: string -> Option<Json>, dumps: Json -> string)

  /** What a well-behaved codec guarantees for a value: `json.loads(json.dumps(j)) == j`. */
  predicate RoundTrips(codec: Codec, j: Json) {
    codec.loads(codec.dumps(j)) == Some(j)
  }
}
