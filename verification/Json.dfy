/** JSON values: the contract states, patches and stored KV values of the library. */
module Json {
  datatype Json =
    | Null
    | Bool(b: bool)
    | Num(n: real)
    | Str(s: string)
    | Arr(items: seq<Json>)
    | Obj(fields: map<string, Json>)
  {
    /** True for arrays and objects, the values a pointer can step into. */
    predicate Container() { Arr? || Obj? }
  }
}
