/**
 * A JSON value as Python's `json.loads` returns it, with the Python operations
 * the scraper applies to such values: truthiness, `str()`, `dict.get`, the `in`
 * operator, subscripting and iteration. Operations that raise in Python
 * (an `AttributeError`, `KeyError`, `IndexError` or `TypeError`) give `Raised`.
 */
module PyJson {
  import opened Base

  /** Numbers are integers in this model; an object keeps its members in order. */
  datatype Json =
    | JNull
    | JBool(b: bool)
    | JInt(i: int)
    | JStr(s: string)
    | JArr(items: seq<Json>)
    | JObj(fields: seq<(string, Json)>)

  /** A subscript: `x["key"]` or `x[0]`. */
  datatype Key = KStr(name: string) | KInt(index: int)

  /** Python's `bool(j)`. */
  predicate Truthy(j: Json) {
    match j
    case JNull => false
    case JBool(b) => b
    case JInt(i) => i != 0
    case JStr(s) => s != ""
    case JArr(items) => items != []
    case JObj(fields) => fields != []
  }

  function KeysOf(fields: seq<(string, Json)>): set<string> {
    set i | 0 <= i < |fields| :: fields[i].0
  }

  /** The member `k` of an object; a repeated key keeps its last value, as `json.loads` does. */
  function Lookup(fields: seq<(string, Json)>, k: string): (r: Option<Json>)
    ensures r.Some? <==> k in KeysOf(fields)
  {
    if |fields| == 0 then None
    else if fields[|fields| - 1].0 == k then Some(fields[|fields| - 1].1)
    else
      assert KeysOf(fields) == KeysOf(fields[..|fields| - 1]) + {fields[|fields| - 1].0};
      Lookup(fields[..|fields| - 1], k)
  }

  /** The distinct keys of an object in first-appearance order, as iterating a dict gives them. */
  function KeyOrder(fields: seq<(string, Json)>): (r: seq<string>)
    ensures forall k :: k in r <==> k in KeysOf(fields)
  {
    if |fields| == 0 then []
    else
      var r := KeyOrder(fields[..|fields| - 1]);
      assert KeysOf(fields) == KeysOf(fields[..|fields| - 1]) + {fields[|fields| - 1].0};
      if fields[|fields| - 1].0 in r then r else r + [fields[|fields| - 1].0]
  }

  /** `j.get(k, default)`; only a dict has `get`. */
  function GetOr(j: Json, k: string, default: Json): Result<Json> {
    match j
    case JObj(fields) =>
      (match Lookup(fields, k) case Some(v) => Ok(v) case None => Ok(default))
    case _ => Raised
  }

  /** `j.get(k)`; a missing key reads as `None`. */
  function GetMember(j: Json, k: string): Result<Json> {
    GetOr(j, k, JNull)
  }

  /** `k in j` for a string `k`: a key of a dict, an element of a list, a substring of a string. */
  function In(k: string, j: Json): Result<bool> {
    match j
    case JObj(fields) => Ok(k in KeysOf(fields))
    case JArr(items) => Ok(JStr(k) in items)
    case JStr(s) => Ok(Contains(s, k))
    case _ => Raised
  }

  /** `j[key]`. */
  function Index(j: Json, key: Key): Result<Json> {
    match (j, key)
    case (JObj(fields), KStr(k)) =>
      (match Lookup(fields, k) case Some(v) => Ok(v) case None => Raised)
    case (JArr(items), KInt(i)) =>
      if 0 <= i < |items| then Ok(items[i])
      else if -|items| <= i < 0 then Ok(items[i + |items|])
      else Raised
    case (JStr(s), KInt(i)) =>
      if 0 <= i < |s| then Ok(JStr([s[i]]))
      else if -|s| <= i < 0 then Ok(JStr([s[i + |s|]]))
      else Raised
    case _ => Raised
  }

  /** The values `for x in j` visits. */
  function Iter(j: Json): Result<seq<Json>> {
    match j
    case JArr(items) => Ok(items)
    case JObj(fields) => var ks := KeyOrder(fields); Ok(seq(|ks|, i requires 0 <= i < |ks| => JStr(ks[i])))
    case JStr(s) => Ok(seq(|s|, i requires 0 <= i < |s| => JStr([s[i]])))
    case _ => Raised
  }

  /** `isinstance(j, str) and j.endswith(suffix)`. */
  predicate StrEndsWith(j: Json, suffix: string) {
    j.JStr? && EndsWith(j.s, suffix)
  }

  /**
   * Python's `str(j)`, which an f-string applies to a value. Lists and dicts are
   * rendered as Python displays them, with strings in single quotes.
   */
  function Str(j: Json): string {
    match j
    case JStr(s) => s
    case _ => Repr(j)
  }

  function Repr(j: Json): string
    decreases j
  {
    match j
    case JNull => "None"
    case JBool(b) => if b then "True" else "False"
    case JInt(i) => IntToString(i)
    case JStr(s) => "'" + s + "'"
    case JArr(items) =>
      "[" + Join(seq(|items|, i requires 0 <= i < |items| => Repr(items[i])), ", ") + "]"
    case JObj(fields) =>
      "{" + Join(seq(|fields|, i requires 0 <= i < |fields| =>
                   assert fields[i].1 < fields[i];
                   "'" + fields[i].0 + "': " + Repr(fields[i].1)), ", ") + "}"
  }
}
