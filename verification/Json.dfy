/** JSON values, as the wire, the configuration and the daemon's replies use
    them. Integers and other numbers stay apart, as they do when parsed. */
module Json {
  import opened Wrappers

  datatype Json =
    | Null
    | Bool(truth: bool)
    | Int(integer: int)
    | Float(number: real)
    | Str(text: string)
    | Arr(items: seq<Json>)
    | Obj(fields: map<string, Json>)
  {
    /** Member lookup; nothing for a missing key or a value that is no object. */
    function Get(key: string): Option<Json> {
      if Obj? && key in fields then Some(fields[key]) else None
    }
  }

  function Insert(target: Json, key: string, value: Json): Json
    requires target.Obj?
  {
    Obj(target.fields[key := value])
  }

  const EMPTY_OBJECT := Obj(map[])
}
