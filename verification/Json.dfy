/** JSON values, as the stores and the wire carry them. */
module Json {
  import opened Prelude

  datatype Json =
    | Null
    | Bool(b: bool)
    | Int(i: int)
    | Float(r: real)
    | Str(s: string)
    | Arr(items: seq<Json>)
    | Obj(fields: map<string, Json>)

  /** A value the host language counts as true. */
  predicate IsTruthy(v: Json) {
    match v
    case Null => false
    case Bool(b) => b
    case Int(i) => i != 0
    case Float(r) => r != 0.0
    case Str(s) => s != ""
    case Arr(items) => items != []
    case Obj(fields) => fields != map[]
  }

  function Get(fields: map<string, Json>, key: string, default: Json): Json {
    if key in fields then fields[key] else default
  }

  /** Conversion to text: a string is itself, anything else is rendered. */
  function ToText(render: Json -> string, v: Json): string {
    if v.Str? then v.s else render(v)
  }

  /** Nothing but white space. */
  predicate IsBlank(isSpace: char -> bool, s: string) {
    forall i :: 0 <= i < |s| ==> isSpace(s[i])
  }
}
