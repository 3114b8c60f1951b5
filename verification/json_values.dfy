/**
 Decoded JSON responses and the Python operations the extractors apply to them.

 An object is a map because Python's `json` keeps only the last of repeated
 keys. Numbers are integers (the responses the code reads carry no fractions).
 */
module JsonValues {
  import opened Wrappers

  datatype Json =
    | JNull
    | JBool(b: bool)
    | JNum(n: int)
    | JStr(s: string)
    | JArr(items: seq<Json>)
    | JObj(fields: map<string, Json>)

  /** `j[key]`: a `KeyError` when an object lacks the key, a `TypeError` on anything but an object. */
  function Member(j: Json, key: string): Result<Json> {
    match j
    case JObj(fields) => if key in fields then Success(fields[key]) else Failure(KeyError(key))
    case _ => Failure(TypeError)
  }

  /** `j.get(key, default)`: only objects have `get`; other values raise an `AttributeError`,
      modelled as `TypeError`. */
  function Get(j: Json, key: string, default: Json): Result<Json> {
    match j
    case JObj(fields) => Success(if key in fields then fields[key] else default)
    case _ => Failure(TypeError)
  }

  /** The elements a `for` loop visits when every element is then subscripted
      with a string key. A list yields its items. An empty string or object
      yields nothing. A non-empty string or object yields strings, and the
      first subscript fails with a `TypeError`, as do scalars, which are not
      iterable. */
  function Records(j: Json): Result<seq<Json>> {
    match j
    case JArr(items) => Success(items)
    case JStr(s) => if |s| == 0 then Success([]) else Failure(TypeError)
    case JObj(fields) => if |fields| == 0 then Success([]) else Failure(TypeError)
    case _ => Failure(TypeError)
  }

  /** A value the code treats as a string; any other value is a `TypeError`. */
  function AsStr(j: Json): Result<string> {
    match j
    case JStr(s) => Success(s)
    case _ => Failure(TypeError)
  }

  /** Python truthiness. */
  predicate Truthy(j: Json) {
    match j
    case JNull => false
    case JBool(b) => b
    case JNum(n) => n != 0
    case JStr(s) => |s| > 0
    case JArr(items) => |items| > 0
    case JObj(fields) => |fields| > 0
  }
}
