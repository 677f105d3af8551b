/** The generic document trees the two parsers produce, and the accessors the
    field mappers use on them (`as_str`, `as_array`, `as_object`/`as_table`,
    JSON indexing and TOML `get`). */
module Values {
  import opened Common

  /** A parsed JSON document (serde_json's `Value`). Numbers are kept as reals:
      the mappers only ever ask whether a value is a string. */
  datatype Json =
    | JNull
    | JBool(b: bool)
    | JNumber(n: real)
    | JString(s: string)
    | JArray(items: seq<Json>)
    | JObject(fields: map<string, Json>)

  /** `value[key]`: the member `key` of an object, and `null` when the value is
      not an object or has no such member. Indexing JSON never fails. */
  function JIndex(v: Json, key: string): Json {
    if v.JObject? && key in v.fields then v.fields[key] else JNull
  }

  function JAsStr(v: Json): Option<string> {
    if v.JString? then Some(v.s) else None
  }

  function JAsArray(v: Json): Option<seq<Json>> {
    if v.JArray? then Some(v.items) else None
  }

  function JAsObject(v: Json): Option<map<string, Json>> {
    if v.JObject? then Some(v.fields) else None
  }

  /** A parsed TOML document (the toml crate's `Value`). A document's root is a
      table. */
  datatype Toml =
    | TString(s: string)
    | TInteger(i: int)
    | TFloat(f: real)
    | TBoolean(b: bool)
    | TDatetime(text: string)
    | TArray(items: seq<Toml>)
    | TTable(entries: map<string, Toml>)

  /** `value.get(key)`: the entry `key` of a table; None when the value is not
      a table or has no such entry. */
  function TGet(v: Toml, key: string): Option<Toml> {
    if v.TTable? && key in v.entries then Some(v.entries[key]) else None
  }

  /** Follows `path` one `get` at a time. The toml crate's indexing
      `value[k1][k2]` is `get(..).expect(..)` at every step: it yields this
      value when it is Some, and panics when it is None. */
  function TGetPath(v: Toml, path: seq<string>): Option<Toml>
    decreases |path|
  {
    if path == [] then Some(v)
    else match TGet(v, path[0])
      case None => None
      case Some(child) => TGetPath(child, path[1..])
  }

  function TAsStr(v: Toml): Option<string> {
    if v.TString? then Some(v.s) else None
  }

  function TAsArray(v: Toml): Option<seq<Toml>> {
    if v.TArray? then Some(v.items) else None
  }

  function TAsTable(v: Toml): Option<map<string, Toml>> {
    if v.TTable? then Some(v.entries) else None
  }
}
