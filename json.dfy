/** JSON values as they appear in a STAC payload and in task options. */
module Json {

  /** Numbers are integers here: floating point is not part of the model. */
  datatype Json =
    | Null
    | Bool(b: bool)
    | Num(n: int)
    | Str(s: string)
    | Arr(elems: seq<Json>)
    | Obj(members: map<string, Json>)
}
