/** JSON values as the pipeline sees them after decoding, and the small result types shared by
    every module.  An object is a map: the order of its keys is not part of its value. */
module Json {

  datatype Option<+T> = None | Some(value: T)

  datatype Result<+T, +E> = Ok(value: T) | Err(error: E)

  datatype Json =
    | Null
    | Bool(b: bool)
    | Int(i: int)
    | Float(r: real)
    | Str(s: string)
    | Arr(items: seq<Json>)
    | Obj(fields: map<string, Json>)

  /** Python's `isinstance(value, int | float)` without booleans. */
  predicate IsNumber(j: Json) {
    j.Int? || j.Float?
  }

  function AsReal(j: Json): real
    requires IsNumber(j)
  {
    if j.Int? then j.i as real else j.r
  }
}
