/** Values that `JSON.parse` produces. Duplicate keys keep the last value,
    as `JSON.parse` does; key order is not kept. */
module Json {
  import opened Wrappers

  datatype Value =
    | Null
    | Bool(b: bool)
    | Num(n: real)
    | Str(s: string)
    | Arr(items: seq<Value>)
    | Obj(fields: map<string, Value>)

  /** `typeof value?.name === 'string' ? value.name : undefined`, with
      `undefined` as None: only an object with a string `name` field has one. */
  function StringField(value: Value, key: string): (r: Option<string>)
    ensures r.Some? <==> value.Obj? && key in value.fields && value.fields[key].Str?
    ensures r.Some? ==> value.fields[key] == Str(r.value)
  {
    match value
    case Obj(fields) =>
      if key in fields && fields[key].Str? then Some(fields[key].s) else None
    case _ => None
  }
}
