/**
 * The part of JSON the application inspects. `JSON.parse` and `JSON.stringify` are
 * library primitives and stay abstract: they are passed in as a `JsonCodec`, and the
 * properties of a conforming codec are stated by `Sound`.
 */
module JsonValue {
  import opened Wrappers

  /** A parsed JSON value; `JOther` stands for null, booleans, numbers and objects. */
  datatype Json = JString(str: string) | JArray(items: seq<Json>) | JOther

  /** `parse` returns `None` where `JSON.parse` throws. */
  datatype JsonCodec = JsonCodec(parse: string -> Option<Json>, stringify: Json -> string)

  /** JSON text is never empty, and parsing what was stringified gives the value back. */
  ghost predicate Sound(codec: JsonCodec) {
    forall j :: codec.stringify(j) != "" && codec.parse(codec.stringify(j)) == Some(j)
  }

  /** The JSON array of the given strings, as `JSON.stringify(strings)` writes it. */
  function StringArray(strings: seq<string>): (j: Json)
    ensures j.JArray? && |j.items| == |strings|
    ensures forall i :: 0 <= i < |strings| ==> j.items[i] == JString(strings[i])
  {
    JArray(seq(|strings|, i requires 0 <= i < |strings| => JString(strings[i])))
  }

  /** `typeof value === "string" ? value : null` */
  function StringOrNull(value: Json): Option<string> {
    if value.JString? then Some(value.str) else None
  }
}
