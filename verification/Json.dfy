/** A JSON value. Numbers are kept as their text: nothing here computes with
    them. The order of an object's keys carries no meaning. */
module Json {
  import opened Options

  datatype Json =
    | Null
    | Bool(b: bool)
    | Number(text: string)
    | Str(s: string)
    | Arr(items: seq<Json>)
    | Obj(fields: map<string, Json>)

  function Get(j: Json, key: string): Option<Json> {
    if j.Obj? && key in j.fields then Some(j.fields[key]) else None
  }

  function AsStr(j: Json): Option<string> {
    if j.Str? then Some(j.s) else None
  }

  function AsArr(j: Json): Option<seq<Json>> {
    if j.Arr? then Some(j.items) else None
  }

  function GetStr(j: Json, key: string): Option<string> {
    match Get(j, key)
    case Some(v) => AsStr(v)
    case None => None
  }

  function GetArr(j: Json, key: string): Option<seq<Json>> {
    match Get(j, key)
    case Some(v) => AsArr(v)
    case None => None
  }

  function With(j: Json, key: string, value: Json): Json
    requires j.Obj?
  {
    Obj(j.fields[key := value])
  }
}
