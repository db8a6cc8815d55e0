/** Decoded JSON trees, as encoding/json leaves them in an `any`. */
module Json {

  datatype Option<+T> = None | Some(value: T)

  /** The number leaf is a parameter: a lexeme where text matters, a real where
      arithmetic matters. */
  datatype Json<N> =
    | Null
    | Bool(b: bool)
    | Str(s: string)
    | Num(n: N)
    | Arr(elems: seq<Json<N>>)
    | Obj(fields: map<string, Json<N>>)

  /** One step from a node to a child. */
  datatype Step = Key(k: string) | Index(i: nat)

  /** The node reached from `v` along `path`, if there is one. */
  function At<N>(v: Json<N>, path: seq<Step>): Option<Json<N>>
    decreases |path|
  {
    if path == [] then Some(v)
    else
      match (v, path[0])
      case (Obj(m), Key(k)) => if k in m then At(m[k], path[1..]) else None
      case (Arr(a), Index(i)) => if i < |a| then At(a[i], path[1..]) else None
      case _ => None
  }
}
