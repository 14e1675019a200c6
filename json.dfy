/**
 * JSON values as both trees see them: QJsonValue / QJsonObject in C++ and the
 * result of `json.loads` in Python.  Numbers are integers, the only numbers the
 * state document holds.  An object is a map, so key order plays no part.
 *
 * Serialisation, parsing and SHA-256 are the library's business: a `Codec`
 * bundles them as functions, and `Codec.Sound` is the one fact the model
 * assumes of them, that parsing what was serialised gives the value back.
 */
module Json {
  import opened Wrappers
  import opened Text

  datatype Json =
    | JNull
    | JBool(b: bool)
    | JNum(n: int)
    | JStr(s: String)
    | JArr(items: seq<Json>)
    | JObj(fields: map<String, Json>)

  type Object = map<String, Json>

  /** QJsonObject::value / dict.get: the member under `key`, if any. */
  function Get(o: Object, key: String): (r: Option<Json>)
    ensures r.Some? <==> key in o
    ensures r.Some? ==> r.value == o[key]
  {
    if key in o then Some(o[key]) else None
  }

  const INT_MIN: int := -0x8000_0000
  const INT_MAX: int := 0x7FFF_FFFF

  /** QJsonValue::toInt(): the number when it fits a 32-bit int, else 0 (also for a missing member). */
  function ToInt(v: Option<Json>): (r: int)
    ensures INT_MIN <= r <= INT_MAX
    ensures (v.Some? && v.value.JNum? && INT_MIN <= v.value.n <= INT_MAX) ==> r == v.value.n
    ensures !(v.Some? && v.value.JNum?) ==> r == 0
  {
    match v
    case Some(JNum(n)) => if INT_MIN <= n <= INT_MAX then n else 0
    case _ => 0
  }

  /** QJsonValue::toString(): the text of a string value, else "". */
  function ToStr(v: Option<Json>): (r: String)
    ensures v.Some? && v.value.JStr? ==> r == v.value.s
    ensures !(v.Some? && v.value.JStr?) ==> r == ""
  {
    match v
    case Some(JStr(s)) => s
    case _ => ""
  }

  /** QJsonValue::toObject(): the members of an object value, else the empty object. */
  function ToObject(v: Option<Json>): (r: Object)
    ensures v.Some? && v.value.JObj? ==> r == v.value.fields
    ensures !(v.Some? && v.value.JObj?) ==> r == map[]
  {
    match v
    case Some(JObj(o)) => o
    case _ => map[]
  }

  /** QJsonValue::toArray(): the elements of an array value, else the empty array. */
  function ToArray(v: Option<Json>): (r: seq<Json>)
    ensures v.Some? && v.value.JArr? ==> r == v.value.items
    ensures !(v.Some? && v.value.JArr?) ==> r == []
  {
    match v
    case Some(JArr(a)) => a
    case _ => []
  }

  /** QJsonArray::fromStringList. */
  function StringArray(ss: seq<String>): (r: seq<Json>)
    ensures |r| == |ss|
    ensures forall i :: 0 <= i < |ss| ==> r[i] == JStr(ss[i])
  {
    seq(|ss|, i requires 0 <= i < |ss| => JStr(ss[i]))
  }

  /**
   * The JSON library: the compact serialisation (Qt's Compact, or Python's
   * key-sorted dump without spaces), the indented one, Python's default
   * `json.dumps`, a parser and a SHA-256 hex digest of text.
   */
  datatype Codec = Codec(
    compact: Json -> String,
    indented: Json -> String,
    plain: Json -> String,
    parse: String -> Option<Json>,
    sha256Hex: String -> String)
  {
    /** Parsing a serialised value gives the value back. */
    ghost predicate Sound() {
      (forall j :: parse(indented(j)) == Some(j)) &&
      (forall j :: parse(compact(j)) == Some(j)) &&
      (forall j :: parse(plain(j)) == Some(j))
    }
  }
}
