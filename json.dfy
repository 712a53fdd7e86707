/** The decoded JSON values held in result-file metadata, with Python's `str()`
    and `repr()` of them. */
module Json {
  import opened Wrappers
  import opened Text
  import Dicts

  /** A JSON value as Python holds it. A float carries its Python `str()` text,
      which is taken as given. Objects keep their key order. */
  datatype Json =
    | JNull
    | JBool(b: bool)
    | JInt(i: int)
    | JFloat(d: real, shown: string)
    | JStr(s: string)
    | JArr(items: seq<Json>)
    | JObj(fields: seq<(string, Json)>)

  type Dict = seq<(string, Json)>

  /** `d.get(k, default)`. */
  function GetOr(d: Dict, k: string, default: Json): Json {
    Dicts.Get(d, k).GetOr(default)
  }

  /** `str(v)`. */
  function Str(v: Json): string {
    match v
    case JStr(s) => s
    case _ => Repr(v)
  }

  /** `repr(v)`; string escapes inside containers are not modelled. */
  function Repr(v: Json): string
    decreases v
  {
    match v
    case JNull => "None"
    case JBool(b) => if b then "True" else "False"
    case JInt(i) => IntToString(i)
    case JFloat(_, shown) => shown
    case JStr(s) => "'" + s + "'"
    case JArr(items) =>
      "[" + Join(seq(|items|, i requires 0 <= i < |items| => Repr(items[i])), ", ") + "]"
    case JObj(fields) =>
      "{" + Join(seq(|fields|, i requires 0 <= i < |fields| => "'" + fields[i].0 + "': " + Repr(fields[i].1)), ", ") + "}"
  }

  /** Python truthiness: `None`, `False`, zero and empty containers are false. */
  predicate Truthy(v: Json) {
    match v
    case JNull => false
    case JBool(b) => b
    case JInt(i) => i != 0
    case JFloat(d, _) => d != 0.0
    case JStr(s) => s != []
    case JArr(items) => items != []
    case JObj(fields) => fields != []
  }

  /** What `for x in v` walks over: a list's items, an object's keys, a string's
      characters; `None` where Python raises a `TypeError`. */
  function Items(v: Json): (r: Option<seq<Json>>)
    ensures r.Some? <==> v.JArr? || v.JObj? || v.JStr?
    ensures v.JArr? ==> r == Some(v.items)
  {
    match v
    case JArr(items) => Some(items)
    case JObj(fields) => Some(seq(|fields|, i requires 0 <= i < |fields| => JStr(fields[i].0)))
    case JStr(s) => Some(seq(|s|, i requires 0 <= i < |s| => JStr([s[i]])))
    case _ => None
  }

  /** `x in container` for a string `x`: a substring, an element or a key test,
      or `None` where Python raises a `TypeError`. */
  function StrIn(x: string, container: Json): (r: Option<bool>)
    ensures r.None? <==> !(container.JStr? || container.JArr? || container.JObj?)
    ensures container.JObj? ==> r == Some(Dicts.HasKey(container.fields, x))
    ensures container.JArr? ==> r == Some(JStr(x) in container.items)
  {
    match container
    case JStr(s) => Some(Contains(s, x))
    case JArr(items) => Some(JStr(x) in items)
    case JObj(fields) => Some(Dicts.HasKey(fields, x))
    case _ => None
  }
}
