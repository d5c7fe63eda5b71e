/**
 * JSON values as `json.load` returns them and `json.dump` writes them, and the
 * Python operations the aggregator applies to them. Each operation returns
 * None where Python raises (KeyError, TypeError, AttributeError, ValueError).
 */
module JsonValue {
  import opened Wrappers
  import opened Text

  datatype Json =
    | JNull
    | JBool(b: bool)
    | JInt(i: int)
    | JReal(r: real)
    | JStr(s: string)
    | JArr(items: seq<Json>)
    | JObj(fields: map<string, Json>)

  /** The empty object `{}`. */
  const EmptyObject: Json := JObj(map[])

  /** `{'error': message}` */
  function ErrorObject(message: string): Json {
    JObj(map["error" := JStr(message)])
  }

  /** `needle in hay` on strings: `needle` is a prefix of some tail of `hay`. */
  predicate IsSubstring(needle: string, hay: string)
    decreases |hay|
  {
    needle <= hay || (|hay| > 0 && IsSubstring(needle, hay[1..]))
  }

  /** `key in container`: a dict's keys, a list's elements, a str's substrings; anything else raises. */
  function Contains(container: Json, key: string): Option<bool> {
    match container
    case JObj(f) => Some(key in f)
    case JArr(items) => Some(JStr(key) in items)
    case JStr(s) => Some(IsSubstring(key, s))
    case _ => None
  }

  /** `container[key]`: only a dict holding the key answers. */
  function Subscript(container: Json, key: string): Option<Json> {
    if container.JObj? && key in container.fields then Some(container.fields[key]) else None
  }

  /** `container.get(key, default)`: only a dict has `.get`. */
  function Get(container: Json, key: string, default: Json): Option<Json> {
    if !container.JObj? then None
    else if key in container.fields then Some(container.fields[key])
    else Some(default)
  }

  /** `len(value)` */
  function Length(value: Json): Option<nat> {
    match value
    case JArr(items) => Some(|items|)
    case JObj(f) => Some(|f|)
    case JStr(s) => Some(|s|)
    case _ => None
  }

  /** `float(value)` */
  function ToFloat(value: Json): Option<real> {
    match value
    case JInt(i) => Some(i as real)
    case JReal(r) => Some(r)
    case JBool(b) => Some(if b then 1.0 else 0.0)
    case JStr(s) => ParseDecimal(s)
    case _ => None
  }

  /** `int(value)`: a float is truncated toward zero, a str must be integer text. */
  function ToInt(value: Json): Option<int> {
    match value
    case JInt(i) => Some(i)
    case JReal(r) => Some(Truncate(r))
    case JBool(b) => Some(if b then 1 else 0)
    case JStr(s) => ParseInt(s)
    case _ => None
  }

  /** A Python value that may be None, as JSON. */
  function TextOrNull(text: Option<string>): Json {
    if text.Some? then JStr(text.value) else JNull
  }
}
