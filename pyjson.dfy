/**
 * JSON values as the server's Python code sees them after `json.load`, together with the
 * few Python operations the server applies to them: truthiness, `in`, `d[key]`, `d.get`.
 * Serialisation itself is not modelled: a `JsonCodec` bundles the encoder, the decoder and
 * Python's `str()` as uninterpreted functions, and `Lawful` states the one law the framing needs.
 */
module PyJson {
  import opened Wrappers

  /** A byte of a Python `bytes` object. */
  type byte = b: int | 0 <= b < 256

  type Bytes = seq<byte>

  /**
   * A decoded JSON document. `JNull` is Python's None, so a field holding `JNull` is a field
   * that is still None (json.load turns `null` into None as well).
   */
  datatype Json =
    | JNull
    | JBool(b: bool)
    | JInt(i: int)
    | JStr(s: string)
    | JArr(items: seq<Json>)
    | JObj(fields: map<string, Json>)

  /**
   * The serialisation functions the server relies on:
   *   encode(v)        json.dumps(v, ensure_ascii=False).encode("utf-8")
   *   decode(b, enc)   json.load(io.TextIOWrapper(io.BytesIO(b), encoding=enc)); None when it raises
   *   str(v)           Python's str(v), used only for numbers, lists and dicts
   *   localeEncoding   the encoding io.TextIOWrapper falls back to when given encoding=None
   */
  datatype JsonCodec = JsonCodec(
    encode: Json -> Bytes,
    decode: (Bytes, string) -> Option<Json>,
    str: Json -> string,
    localeEncoding: string)

  /** Decoding UTF-8 JSON text produced by the encoder gives back the encoded value. */
  ghost predicate Lawful(codec: JsonCodec)
  {
    forall v: Json {:trigger codec.encode(v)} :: codec.decode(codec.encode(v), "utf-8") == Some(v)
  }

  /** Python's `bool(v)`: the falsy values are exactly None, False, 0, "", [] and {}. */
  predicate Truthy(v: Json)
    ensures Truthy(v) <==>
      v != JNull && v != JBool(false) && v != JInt(0) && v != JStr("") && v != JArr([]) && v != JObj(map[])
  {
    match v
    case JNull => false
    case JBool(b) => b
    case JInt(i) => i != 0
    case JStr(s) => s != ""
    case JArr(items) => items != []
    case JObj(fields) => fields != map[]
  }

  /** `needle` occurs in `hay` as a contiguous substring. */
  predicate IsSubstring(needle: string, hay: string)
  {
    needle <= hay || (hay != [] && IsSubstring(needle, hay[1..]))
  }

  /** Python's `key in v` for a string `key`: dict keys, list elements, substrings; TypeError otherwise. */
  function Contains(v: Json, key: string): (r: Result<bool>)
    ensures r.Err? <==> !(v.JObj? || v.JArr? || v.JStr?)
    ensures r.Err? ==> r.error == TypeError
    ensures v.JObj? ==> r == Ok(key in v.fields)
    ensures v.JArr? ==> r == Ok(JStr(key) in v.items)
    ensures v.JStr? ==> r == Ok(IsSubstring(key, v.s))
  {
    match v
    case JObj(fields) => Ok(key in fields)
    case JArr(items) => Ok(JStr(key) in items)
    case JStr(s) => Ok(IsSubstring(key, s))
    case _ => Err(TypeError)
  }

  /** Python's `v[key]` for a string `key`. */
  function Subscript(v: Json, key: string): (r: Result<Json>)
    ensures r.Ok? <==> v.JObj? && key in v.fields
    ensures r.Ok? ==> r.value == v.fields[key]
    ensures v.JObj? && key !in v.fields ==> r == Err(KeyError(key))
  {
    match v
    case JObj(fields) => if key in fields then Ok(fields[key]) else Err(KeyError(key))
    case _ => Err(TypeError)
  }

  /** Python's `v.get(key, default)`: only dicts have `.get`. */
  function Get(v: Json, key: string, default: Json): (r: Result<Json>)
    ensures r.Ok? <==> v.JObj?
    ensures v.JObj? && key in v.fields ==> r == Ok(v.fields[key])
    ensures v.JObj? && key !in v.fields ==> r == Ok(default)
  {
    match v
    case JObj(fields) => Ok(if key in fields then fields[key] else default)
    case _ => Err(AttributeError)
  }

  /** The integer Python uses when `v` is compared with, or slices by, an int; bool is an int subclass. */
  function AsInt(v: Json): (r: Result<int>)
    ensures r.Ok? <==> v.JInt? || v.JBool?
    ensures r.Err? ==> r.error == TypeError
    ensures v.JInt? ==> r == Ok(v.i)
    ensures v.JBool? ==> r == Ok(if v.b then 1 else 0)
  {
    match v
    case JInt(i) => Ok(i)
    case JBool(b) => Ok(if b then 1 else 0)
    case _ => Err(TypeError)
  }

  /** Python's `str(v)` as an f-string renders it. */
  function PyStr(codec: JsonCodec, v: Json): (r: string)
    ensures v.JStr? ==> r == v.s
    ensures v.JNull? ==> r == "None"
  {
    match v
    case JStr(s) => s
    case JNull => "None"
    case JBool(b) => if b then "True" else "False"
    case _ => codec.str(v)
  }
}
